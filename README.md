# Recipes app core, modelled in Dafny

This project models the logic of the Recipes iOS app (Swift): the parts
that decide what the app stores, accepts, shows and opens. Those parts are:

- **Image cache.** A two-tier cache: a memory map keyed by the URL's
  absolute string, and a disk directory keyed by a sanitised file name.
  It supports lookup with disk fallback and timestamp refresh, store,
  remove, the clear operations and the one-week expiry sweep. The
  `ImageLoader` state machine sits on top of it (`image_cache.dfy`,
  module `Cache`).
- **Record validation.** Validation of decoded recipe records: the
  ordered guard chain of one record and the all-or-nothing validation
  of a list (`recipe_dto.dfy`, module `Dto`). The `Recipe` record and
  its field-wise `==` are in `recipe.dfy`, module `Recipes`.
- **Service outcomes.** The classification of the data source's outcome
  into `RecipeServiceError`, in both the completion-handler and the
  publisher variant (`recipe_service.dfy`, module `Service`).
- **Search filter.** The lowercased, space-split, all-terms filter
  (`search_filter.dfy`, module `Search`).
- **View models.** The two list-screen view models, each a class whose
  fields the methods update:
  - the current one, with `ViewState` (`recipes_view_model.dfy`, module
    `ViewModel`);
  - the older one beside `ContentView`, with `isLoading` and
    `errorMessage`, plus `isSearchResultEmpty` (`content_view.dfy`,
    module `ContentView`).
- **URL providers.** Both `DefaultURLProvider`s:
  - the site and video link fallbacks;
  - the search query text;
  - percent-encoding (`url_provider.dfy`, `legacy_url_provider.dfy` and
    `percent_encoding.dfy`).
- **Recipe detail screen.** Its decisions:
  - the failed-load message;
  - the video-or-search routing;
  - the YouTube query;
  - the chain of `searchYouTube`/`openURLSafely` calls
  
  (`recipe_detail_view.dfy`, module `DetailView`).

Some Foundation behaviour is left uninterpreted. `URL(string:)` and
`UUID(uuidString:)` are functions held in a `Platform` value, so every
property proved here holds whatever those parsers accept. The same goes
for `localizedDescription` of errors, image decoding and JPEG encoding.

Time is an integer number of seconds passed in as `now`. File-system
calls whose failure the app ignores with `try?` become boolean
parameters. A force unwrap (`URL(string: …)!`) becomes a precondition
that the parser accepts the text.

`lowercased()`, `trimmingCharacters(in: .whitespacesAndNewlines)`,
`split(separator: " ")`, `contains`, `replacingOccurrences` and
`addingPercentEncoding` have ASCII/UTF-8 definitions in `foundation.dfy`
and `percent_encoding.dfy`. A percent-decoder is defined beside the
encoder, so the encoding can be stated as a round trip.

Asynchronous work is split into one method per callback at its
suspension points. This covers the Combine `sink` callbacks, the `async`
refresh and the image fetch. Every state a screen can show is the state
between two such method calls.

## Model

| member | source | states |
|---|---|---|
| Foundation.Lower | Recipes/RecipesViewModel.swift:75-77 | lowercasing keeps the length and maps every character through the ASCII case map |
| Foundation.LowerAppend | Recipes/RecipesViewModel.swift:75-77 | lowercasing a concatenation is the concatenation of the lowercased parts |
| Foundation.Contains | Recipes/RecipesViewModel.swift:78-80 | `contains(term)` holds exactly when `term` occurs at some index of the text |
| Foundation.Trim | Recipes/RecipeDetailView.swift:209-210 | the result is a slice `s[i..j]` of the input with only whitespace before `i` and after `j`, and it neither starts nor ends with whitespace |
| Foundation.TrimmedAlready | Recipes/RecipeDetailView.swift:209-210 | text without whitespace at either end is unchanged by trimming |
| Foundation.ReplaceChar | Recipes/RecipeDetailView.swift:219 | after replacing `c` by a text without `c`, no `c` is left; text without `c` is unchanged; a one-character replacement keeps the length and changes exactly the positions holding `c` |
| Foundation.ReplaceCharAppend | Recipes/RecipeDetailView.swift:219 | replacing distributes over concatenation |
| PercentEncoding.PercentEncode | Recipes/Protocols/URLProvider.swift:32 | the encoded text is never shorter than the input |
| PercentEncoding.EncodeAppend | Recipes/Protocols/URLProvider.swift:32 | encoding is character by character: it distributes over concatenation |
| PercentEncoding.EncodeAllowedUnchanged | Recipes/Protocols/URLProvider.swift:32 | text made only of allowed characters is left exactly as it is |
| PercentEncoding.EncodeAlphabet | Recipes/Protocols/URLProvider.swift:32 | the encoded text holds only allowed characters, `%` and upper-case hex digits |
| PercentEncoding.EncodedExcludes | Recipes/Protocols/URLProvider.swift:32 | a character that is not allowed, not `%` and not a hex digit never appears in the encoded text |
| PercentEncoding.DecodeEncodedByte | Recipes/Protocols/URLProvider.swift:32 | decoding reads one `%XX` byte back off the front of the text |
| PercentEncoding.DecodeEncodedBytes | Recipes/Protocols/URLProvider.swift:32 | decoding reads a run of encoded bytes back off the front of the text |
| PercentEncoding.DecodeEncode | Recipes/Protocols/URLProvider.swift:32 | round trip: when `%` is not allowed, decoding the encoded text gives the UTF-8 bytes of the input |
| PercentEncoding.AllowedSetsExcludePercent | Recipes/URLProvider.swift:27 | neither the explicit search set nor `urlQueryAllowed` contains `%`, so both encodings decode back |
| PercentEncoding.Utf8NonAsciiHighBytes | Recipes/Protocols/URLProvider.swift:32 | every UTF-8 byte of a non-ASCII character has its high bit set |
| Cache.FileName | Recipes/Model/ImageCache.swift:128-136 | the file name keeps the key's length and every character except the five reserved ones, each of which becomes `_` |
| Cache.CacheKeyIdentifiesUrl | Recipes/Model/ImageCache.swift:124-126 | two URLs share a memory key exactly when they are the same URL |
| Cache.FileNameOf | Recipes/Model/ImageCache.swift:128-136 | a URL's disk file name is its absolute string after the five `replacingOccurrences` passes in the source's order, and it holds none of `/ : ? & =` |
| Cache.FileNameIsFiveReplacements | Recipes/Model/ImageCache.swift:129-134 | the five chained `replacingOccurrences` passes, in the source's order, compute exactly `FileName` |
| Cache.FileNameHasNoReserved | Recipes/Model/ImageCache.swift:130-134 | a file name holds none of `/ : ? & =` |
| Cache.FileNameIdempotent | Recipes/Model/ImageCache.swift:130-134 | sanitising twice equals sanitising once |
| Cache.FileNameAppend | Recipes/Model/ImageCache.swift:130-134 | sanitising distributes over concatenation |
| Cache.SharedDiskFile | Recipes/Model/ImageCache.swift:124-136 | two URLs of equal length that differ only where both hold reserved characters share one disk file |
| Cache.FileNameOfSchemeSeparator | Recipes/Model/ImageCache.swift:130-131 | `://` in a key becomes `___` and the parts on either side are sanitised independently |
| Cache.FileNameCollisionExample | Recipes/Model/ImageCache.swift:124-136 | two different memory keys (`a?b=c`, `a/b:c`) name the same disk file |
| Cache.Sweep | Recipes/Model/ImageCache.swift:147-169 | a file is kept exactly when it is hidden, its date cannot be read, or it is not older than a week; kept files are unchanged |
| Cache.SweepKeepsRecent | Recipes/Model/ImageCache.swift:157-167 | a file stamped within the last week survives the sweep |
| Cache.SweepIdempotent | Recipes/Model/ImageCache.swift:147-169 | sweeping twice at the same time removes nothing more |
| Cache.SweepMonotone | Recipes/Model/ImageCache.swift:157-167 | a later sweep keeps a subset of what an earlier one keeps |
| Cache.ImageCache.constructor | Recipes/Model/ImageCache.swift:20-60 | memory starts empty; the directory exists if it was there or its creation succeeded; a persisted directory is swept when it can be listed |
| Cache.ImageCache.ImageFor | Recipes/Model/ImageCache.swift:68-91 | returns the memory entry and changes nothing on a hit; on a miss with a decodable file, re-stamps that file with `now`, puts the image in memory and returns it; otherwise returns nil and changes nothing |
| Cache.ImageCache.StoreImage | Recipes/Model/ImageCache.swift:93-104 | always sets the memory entry, other keys untouched; writes the file only when JPEG encoding and the write succeed; a lookup then finds the image |
| Cache.ImageCache.RemoveImage | Recipes/Model/ImageCache.swift:106-115 | removes exactly this key from memory and this file from disk (no-op when absent); a lookup then misses |
| Cache.ImageCache.ClearMemoryCache | Recipes/Model/ImageCache.swift:138-140 | memory becomes empty; disk and directory are unchanged |
| Cache.ImageCache.ClearDiskCache | Recipes/Model/ImageCache.swift:142-145 | the directory is emptied and exists again when re-creation succeeds; memory is unchanged |
| Cache.ImageCache.ClearAllCache | Recipes/Model/ImageCache.swift:117-120 | both tiers are empty and every lookup misses |
| Cache.ImageCache.Evict | Recipes/Model/ImageCache.swift:15 | `NSCache` discarding any set of entries removes only those keys from memory and never touches disk |
| Cache.ImageCache.ClearExpiredCache | Recipes/Model/ImageCache.swift:147-169 | when the directory can be listed, the per-file deletion loop leaves exactly `Sweep` of the old directory; otherwise nothing changes; memory never changes |
| Cache.StoreThenLookup | Recipes/Model/ImageCache.swift:93-104 | storing then looking up the same URL returns the stored image |
| Cache.MemoryWarningKeepsDisk | Recipes/Model/ImageCache.swift:35-40 | after a memory warning a stored image is still found, decoded from its disk file |
| Cache.ImageLoader.constructor | Recipes/Model/ImageCache.swift:193-198 | no URL: nothing loads and the cache is untouched; a memory hit shows the image with no subscription and leaves both tiers as they were; a disk hit also puts the image in memory and re-stamps its file with `now`; a miss starts one fetch and leaves both tiers as they were; the directory flag never changes |
| Cache.ImageLoader.LoadImage | Recipes/Model/ImageCache.swift:200-229 | no URL sets error "No URL provided"; a hit sets the image and leaves `isLoading`, with the tiers as `image(for:)` leaves them (unchanged on a memory hit; the image put in memory and the file re-stamped on a disk hit); a miss sets `isLoading` and adds one subscription without touching the cache; the directory flag never changes |
| Cache.ImageLoader.Deliver | Recipes/Model/ImageCache.swift:214-227 | a live fetch ends loading; data that decodes is shown and stored in memory, and its JPEG encoding is written to its disk file stamped `now` when encoding and the write succeed and the directory exists (otherwise the disk tier is unchanged); a failed fetch or undecodable data changes neither tier nor the image; `error` is never set; the directory flag never changes; a cancelled loader is unaffected |
| Cache.ImageLoader.Cancel | Recipes/Model/ImageCache.swift:231-234 | every subscription is dropped; the published fields are unchanged |
| Cache.CancelBeforeArrival | Recipes/Model/ImageCache.swift:214-234 | a fetch arriving after `cancel` changes neither the image nor either tier |
| Recipes.Equals | Recipes/Model/Recipe.swift:20-28 | `==` holds exactly when all seven fields are equal |
| Recipes.EqualsReflexive | Recipes/Model/Recipe.swift:20-28 | `==` is reflexive |
| Recipes.EqualsSymmetric | Recipes/Model/Recipe.swift:20-28 | `==` is symmetric |
| Recipes.EqualsTransitive | Recipes/Model/Recipe.swift:20-28 | `==` is transitive |
| Recipes.SameIdIsNotEnough | Recipes/Model/Recipe.swift:21-27 | recipes sharing an id but differing in any other field are unequal |
| Dto.Validate | Recipes/RecipeDto.swift:49-82 | succeeds exactly when the uuid parses, cuisine and name are non-empty and both photo URLs parse; the result copies the fields, absent links becoming `""`; every failure is `invalidRecipe` |
| Dto.FirstFailingCheckDecides | Recipes/RecipeDto.swift:50-70 | validation fails exactly when one of the five guards fails, and the message is that of the first failing guard in source order |
| Dto.LinksAreNotValidated | Recipes/RecipeDto.swift:79-80 | whether a record is accepted does not depend on its source or video link |
| Dto.ValidateEach | Recipes/RecipeDto.swift:29 | `map { try validate() }` succeeds exactly when no record fails, yielding each record's conversion in order; otherwise its error is the first failing record's |
| Dto.ValidateAll | Recipes/RecipeDto.swift:21-35 | succeeds exactly for a non-empty list of valid records, same length and order; an empty list gives "No recipes found in the data"; otherwise "Invalid recipe found: " and the first failing record's error; every failure is `invalidRecipesList` |
| Dto.ValidateAllIsElementwise | Recipes/RecipeDto.swift:29 | element i of an accepted list is the validation of record i |
| Dto.OneInvalidRejectsAll | Recipes/RecipeDto.swift:28-31 | one invalid record anywhere rejects the whole list with `invalidRecipesList` |
| Service.ErrorEquals | Recipes/Network/RecipeService.swift:17-28 | `==` holds exactly for the same case with the same message |
| Service.DifferentCasesNeverEqual | Recipes/Network/RecipeService.swift:25-26 | errors of different cases are never equal |
| Service.ClassifySourceError | Recipes/Network/RecipeService.swift:151-156 | a decoding failure becomes `decodingError`, any other failure `networkError`, keeping its description |
| Service.FetchWithCompletion | Recipes/Network/RecipeService.swift:136-158 | success exactly when the source delivered a list that validates, with that list; a rejected list gives `validationError` of the localized validation error; a source failure is classified |
| Service.FetchSucceedsIffAllValid | Recipes/Network/RecipeService.swift:139-148 | a fetch succeeds exactly for a delivered non-empty list of valid records, yielding their conversions in order |
| Service.ErrorCaseNamesTheStage | Recipes/Network/RecipeService.swift:139-156 | a failure is `validationError` exactly when the source delivered, `decodingError` exactly for a decoding failure, `networkError` exactly for any other |
| Service.EmptyListIsValidationError | Recipes/Network/RecipeService.swift:143-146 | an empty delivered list fails with the validation error "No recipes found in the data" |
| Service.UpstreamStage | Recipes/Network/RecipeService.swift:110-117 | values pass through; every upstream error becomes a decoding or network error |
| Service.TryMapStage | Recipes/Network/RecipeService.swift:118-126 | every error it emits is a thrown service error; an upstream error passes through unchanged |
| Service.FinalStage | Recipes/Network/RecipeService.swift:127-132 | values pass through; a service error is kept as it is; any other error becomes `validationError` of its description |
| Service.FetchWithPublisher | Recipes/Network/RecipeService.swift:108-134 | the publisher emits a list exactly when the source delivered one that validates, and emits that list; a rejected list fails with `validationError` of the localized validation error; a source failure fails with `decodingError` for a decoding failure and `networkError` otherwise, keeping its description |
| Service.PublisherAgreesWithCompletion | Recipes/Network/RecipeService.swift:108-158 | the publisher pipeline and the completion handler give the same result for every source outcome |
| Search.Split | Recipes/RecipesViewModel.swift:75 | every piece is non-empty and holds no space; with `SplitWord`, `SpacesOnlyHaveNoTerms` and `SplitAppendSpace` this fixes the pieces as the maximal runs of non-space characters, in order |
| Search.SplitWord | Recipes/RecipesViewModel.swift:75 | a non-empty text without spaces splits into exactly itself |
| Search.SpacesOnlyHaveNoTerms | Recipes/RecipesViewModel.swift:75 | a text of spaces only splits into no pieces |
| Search.SplitAppendSpace | Recipes/RecipesViewModel.swift:75 | splitting `a + " " + b` gives the pieces of `a` followed by those of `b` |
| Search.Filter | Recipes/RecipesViewModel.swift:67-82 | the result is an order-preserving subsequence of the recipes, holding exactly the recipes the query keeps, each as many times as it occurs in the list |
| Search.EmptyQueryKeepsAll | Recipes/RecipesViewModel.swift:70-73 | an empty query keeps the list as it is |
| Search.SpacesOnlyKeepAll | Recipes/RecipesViewModel.swift:75-80 | a query of spaces only keeps every recipe, in order |
| Search.KeptForFewerTerms | Recipes/RecipesViewModel.swift:78-80 | a recipe kept for a query is kept for every query whose terms are among that query's terms |
| Search.MoreTermsKeepFewer | Recipes/RecipesViewModel.swift:78-80 | a query whose terms include another's keeps a subsequence of what the other keeps |
| Search.AddingTermNeverEnlarges | Recipes/RecipesViewModel.swift:75-80 | appending a term to the query keeps a subsequence of the earlier result |
| Search.MatchesAllMeansOccurs | Recipes/RecipesViewModel.swift:77-80 | matching all terms means each term occurs somewhere in the lowercased `"cuisine name"` |
| Search.KeptIffAllTermsOccur | Recipes/ContentView.swift:79-88 | for a non-empty query a recipe is kept exactly when every lowercased term occurs in its lowercased `"cuisine name"` |
| ViewModel.RefreshErrorMessage | Recipes/RecipesViewModel.swift:60-64 | a service error shows its description; any other error "An unexpected error occurred" |
| ViewModel.RecipesViewModel.constructor | Recipes/RecipesViewModel.swift:11-14 | the screen starts in `.loading` with empty lists and search text |
| ViewModel.RecipesViewModel.UpdateSearchText | Recipes/RecipesViewModel.swift:30-32 | only the search text changes |
| ViewModel.RecipesViewModel.FilterRecipes | Recipes/RecipesViewModel.swift:67-82 | the filtered list is the filter of the full list by the given query, or else the current search text; nothing else changes |
| ViewModel.RecipesViewModel.LoadRecipes | Recipes/RecipesViewModel.swift:34-35 | the screen shows `.loading`; the lists are unchanged |
| ViewModel.RecipesViewModel.OnLoadValue | Recipes/RecipesViewModel.swift:43-47 | the delivered list replaces the recipes, is refiltered by the search text, and the state becomes `.success` |
| ViewModel.RecipesViewModel.OnLoadCompletion | Recipes/RecipesViewModel.swift:39-42 | a failure shows `.error` with its description; the lists are kept |
| ViewModel.RecipesViewModel.BeginRefresh | Recipes/RecipesViewModel.swift:52-53 | the screen shows `.loading` |
| ViewModel.RecipesViewModel.FinishRefresh | Recipes/RecipesViewModel.swift:55-64 | fetched recipes replace the list, refiltered, with `.success`; a failure shows its message and keeps the lists |
| ViewModel.LoadThenDeliver | Recipes/RecipesViewModel.swift:34-49 | a load that delivers ends in `.success` showing exactly the delivered recipes the search keeps |
| ViewModel.LoadThenFail | Recipes/RecipesViewModel.swift:34-49 | a failed load ends in `.error` and keeps the recipes shown before |
| ContentView.RecipesViewModel.constructor | Recipes/ContentView.swift:12-16 | starts with empty lists, not loading, no error |
| ContentView.RecipesViewModel.IsSearchResultEmpty | Recipes/ContentView.swift:113-116 | true exactly when a search is typed and the filtered list is empty; while the filtered list is the filter of the recipes by the search text, true exactly when a search is typed and no recipe matches it |
| ContentView.RecipesViewModel.FilterRecipes | Recipes/ContentView.swift:70-90 | the filtered list is the filter of the full list by the given query or the search text; nothing else changes |
| ContentView.RecipesViewModel.LoadRecipes | Recipes/ContentView.swift:34-36 | loading starts and any error is cleared |
| ContentView.RecipesViewModel.OnLoadValue | Recipes/ContentView.swift:46-49 | the delivered list replaces the recipes and is refiltered |
| ContentView.RecipesViewModel.OnLoadCompletion | Recipes/ContentView.swift:40-45 | loading ends either way; a failure sets the error message to its description |
| ContentView.RecipesViewModel.BeginRefresh | Recipes/ContentView.swift:54-57 | the error is cleared and `isLoading` is untouched |
| ContentView.RecipesViewModel.FinishRefresh | Recipes/ContentView.swift:59-67 | fetched recipes replace the list, refiltered; a failure sets its message; `isLoading` is never changed |
| ContentView.FilteredEmptyMeansNoMatch | Recipes/ContentView.swift:113-116 | after filtering, "no results" shows exactly when a search is typed and no recipe matches it |
| ContentView.RefreshFailureKeepsSpinner | Recipes/ContentView.swift:53-68 | a refresh failing with a service error shows its description and leaves `isLoading` and the recipes as they were |
| URLProvider.SearchURL | Recipes/Protocols/URLProvider.swift:29-40 | the parsed prefix-plus-encoded-query when it parses, otherwise the fixed fallback chosen by the search kind |
| URLProvider.RecipeSiteURL | Recipes/Protocols/URLProvider.swift:10-17 | the parsed link when it parses, otherwise the Google search for the recipe |
| URLProvider.VideoURL | Recipes/Protocols/URLProvider.swift:19-27 | nil exactly for an empty link; otherwise the parsed link or the YouTube search for the recipe |
| URLProvider.SearchQueryShape | Recipes/Protocols/URLProvider.swift:30 | the query is `"<name> <cuisine> recipe video"` for a video search and `"<name> <cuisine> recipe"` otherwise |
| URLProvider.EncodedQueryRoundTrip | Recipes/Protocols/URLProvider.swift:32 | the encoded query holds no `&`, `#`, `=` or `+`, and decodes back to the UTF-8 bytes of the query |
| URLProvider.SearchURLStringHasPrefix | Recipes/Protocols/URLProvider.swift:33-34 | the text handed to the parser starts with the YouTube results prefix for a video search and the Google prefix otherwise |
| URLProvider.PlainQueryUnchanged | Recipes/Protocols/URLProvider.swift:32-34 | for names and cuisines of letters, digits and spaces the query is appended unencoded |
| LegacyURLProvider.YouTubeSearchURL | Recipes/URLProvider.swift:31-35 | the parse of a text that starts with the YouTube results prefix and continues with text that percent-decodes back to the UTF-8 bytes of the raw search text |
| LegacyURLProvider.GoogleSearchURL | Recipes/URLProvider.swift:37-41 | the parse of a text that starts with the Google search prefix and continues with text that percent-decodes back to the UTF-8 bytes of the raw search text |
| LegacyURLProvider.RecipeSiteURL | Recipes/URLProvider.swift:17-19 | the parsed link, otherwise a Google search for the link's raw text |
| LegacyURLProvider.VideoURL | Recipes/URLProvider.swift:21-23 | nil exactly for an empty link; otherwise the parsed link or a YouTube search for its raw text |
| LegacyURLProvider.SearchURL | Recipes/URLProvider.swift:25-29 | always a YouTube search: the parse of the results prefix followed by text that percent-decodes to the UTF-8 bytes of `name + " " + cuisine + " recipe video"` |
| LegacyURLProvider.SearchTextRoundTrip | Recipes/URLProvider.swift:31-41 | both fallback searches start with their prefix and decode back to the raw text's UTF-8 bytes |
| LegacyURLProvider.AmpersandIsNotEscaped | Recipes/URLProvider.swift:27 | `urlQueryAllowed` keeps `&`, so a recipe name holding `&` puts a bare `&` into the query string |
| LegacyURLProvider.VideoURLAbsentIffEmptyInBoth | Recipes/URLProvider.swift:21-23 | both providers return no video URL for exactly the same links, and the same URL for a link that parses |
| DetailView.RouteVideo | Recipes/RecipeDetailView.swift:146-164 | a search instead exactly when the link is empty, does not parse or is a YouTube watch/short link; otherwise the parsed link is probed |
| DetailView.ProbeOpens | Recipes/RecipeDetailView.swift:168-184 | with an HTTP status the link opens exactly below 400; without one it opens exactly when the request did not fail |
| DetailView.ProcessedName | Recipes/RecipeDetailView.swift:209-219 | the processed name holds no `&` |
| DetailView.YouTubeQueryParts | Recipes/RecipeDetailView.swift:209-221 | the query starts with the `&`-free processed name, then the trimmed cuisine unchanged, and ends with " recipe how to make" |
| DetailView.AmpersandBecomesAnd | Recipes/RecipeDetailView.swift:219 | an `&` between `&`-free parts becomes `and` |
| DetailView.ProcessedNameSpellsOutAmpersand | Recipes/RecipeDetailView.swift:209-219 | a trimmed name with one `&` is searched for with `and` in its place |
| DetailView.YouTubeSearchRoundTrip | Recipes/RecipeDetailView.swift:224-227 | the URL text is the results prefix followed by text that decodes back to the query's UTF-8 bytes |
| DetailView.StepAsWritten | Recipes/RecipeDetailView.swift:191-235 | as written, a search always leads to opening the search URL with a fallback search; opening any URL that cannot be opened, or whose `open` fails, leads to a new search; nothing follows the end |
| DetailView.Step | Recipes/RecipeDetailView.swift:191-235 | corrected, a search leads to opening the search URL without fallback; a new search follows only a failed open of a URL that has the fallback; nothing follows the end |
| DetailView.SearchRepeatsWhenYouTubeWontOpen | Recipes/RecipeDetailView.swift:191-235 | as written, a search URL that cannot be opened makes the screen search again on every step, never finishing |
| DetailView.NavigationAlwaysFinishes | Recipes/RecipeDetailView.swift:191-235 | with the fallback search made only for a video link, every chain of calls finishes within three steps |
| DetailView.CorrectionOnlyAffectsFailures | Recipes/RecipeDetailView.swift:191-203 | when the platform opens every URL, the corrected and the as-written step finish alike |
| DetailView.RecipeDetailScreen.constructor | Recipes/RecipeDetailView.swift:14-16 | the web view shows and there is no message |
| DetailView.NotFoundDecisionTable | Recipes/RecipeDetailView.swift:115-118 | a 404 status always counts as not found; an error outside `NSURLErrorDomain` counts only with a 404; without a 404, exactly the codes `cannotFindHost` and `cannotConnectToHost` of that domain count |
| DetailView.RecipeDetailScreen.HandleWebViewError | Recipes/RecipeDetailView.swift:113-143 | every error hides the web view; a 404 or unreachable host gives the video message with a video link and the search prompt without one; any other error "There was a problem loading the recipe: " and its description; the video is opened exactly in the first case |
| DetailView.RecipeDetailScreen.SearchYouTube | Recipes/RecipeDetailView.swift:206-235 | opens the parse of the YouTube search text and shows "Searching for '<name>' (<cuisine>) recipes on YouTube..." with the processed name and trimmed cuisine |
| DetailView.FailedLoadMessage | Recipes/RecipeDetailView.swift:120-142 | every failed load hides the web view, and the message starts with "The recipe page couldn't be found. " exactly for a 404 or an unreachable host |

## Left out

- SwiftUI and UIKit rendering are not modelled: view bodies, `CachedAsyncImage`, the `Image.cached` extension (Recipes/Model/ImageCache.swift:174-181), the share sheet and the detail screen's loading timer.
- The detail screen's `isLoading` and `showError` state is not modelled; no core function changes it.
- The data source (bundle or network fetch and JSON decoding) is not part of this model. Its outcome is an input of the service.
- `URL(string:)`, `UUID(uuidString:)`, `localizedDescription`, image decoding and JPEG encoding are uninterpreted functions passed in as parameters.
- `lowercased()`, trimming and whitespace use ASCII definitions; Unicode case mapping and Unicode whitespace are not modelled.
- Notification-centre registration is not modelled (Recipes/Model/ImageCache.swift:35-56). The handlers it registers are the methods `ClearMemoryCache` and `ClearExpiredCache`.
- `NSCache` limits and order are not modelled (Recipes/Model/ImageCache.swift:22-23). Eviction is any set of keys chosen by the caller (`Evict`); no LRU order or 100-entry bound is promised.
- `Date` and `TimeInterval` are whole seconds.
- Debounce and `removeDuplicates` are not modelled. The debounced subscription is `FilterRecipes(Some(text))`, called whenever the caller chooses.
- `DispatchQueue.main.async` and `asyncAfter` delays, `[weak self]` captures and the checked continuation are not modelled. Each callback is a method run to completion.
- Cache.ImageCache.ImageFor: does not model a failing `setAttributes`; the re-stamp is assumed to succeed.
- Cache.ImageCache.ImageFor: does not model a failing `try? Data(contentsOf:)` on a file that exists (Recipes/Model/ImageCache.swift:77); a file present in the disk map is always read.
- Cache.ImageCache.RemoveImage: does not model a failing `removeItem`; the file is assumed to be removed.
- Cache.ImageCache.ClearExpiredCache: does not model a failing `removeItem` on a stale file; each stale file is assumed to be removed.
- Cache.ImageCache.ClearDiskCache: does not model a failing `removeItem` of the directory; only the outcome of re-creating it is a parameter.
- Cache.ImageLoader.LoadImage: `error` holds the `NSError`'s description only, not its domain and code.
- Cache.ImageLoader.Deliver: the publisher's `.failure` completion cannot occur after `replaceError`, so that branch is not modelled.
- Service.FetchWithCompletion: the "Unknown error" branch (Recipes/Network/RecipeService.swift:147-148) is not modelled. `validate()` throws only `RecipeValidationError`, so the branch cannot be reached. The same holds for "Unknown validation error" (line 124) and "Unknown error during validation" (Recipes/RecipeDto.swift:32-33).
- Service.FetchWithCompletion: the completion being called exactly once is not stated separately. A function returns exactly one result, so it holds by construction.
- Dto.Describe: Swift's `"\(error)"` escapes quotes and backslashes inside the message; the model does not.
- URLProvider.SearchURL: the `?? ""` branch for a failed encoding is not modelled. A Swift `String` is always valid Unicode, so `addingPercentEncoding` does not fail; the same holds for every `?? ""` in Recipes/URLProvider.swift.
- DetailView.RecipeDetailScreen.SearchYouTube: returns the URL it opens. What opening it leads to is modelled separately, by `StepAsWritten` and `Step`.
- DetailView.RecipeDetailScreen.HandleWebViewError: returns whether `openVideo` follows, instead of waiting 1.5 s and calling it. `openVideo` is modelled by `RouteVideo` and `ProbeOpens`, with the probe request's response as an input.
- The `print` debugging output of `searchYouTube`, `searchURL` and `recipeSiteURL` is not modelled.

## Findings

| source | as written | input that shows it | evidently intended | confidence | as-written member | corrected member |
|---|---|---|---|---|---|---|
| Recipes/RecipeDetailView.swift:191-235 | `searchYouTube` hands its search URL to `openURLSafely`, which calls `searchYouTube` again when `canOpenURL` is false or `open` fails. That rebuilds the same URL, so the two call each other without end, synchronously when `canOpenURL` is false. | A platform on which the YouTube results URL cannot be opened: `canOpenURL` false (a missing `LSApplicationQueriesSchemes` entry), or `open` failing as on the simulator the comment mentions. | Fall back to a search once, for a video link, and stop when the search itself cannot be opened. | not executed | DetailView.SearchRepeatsWhenYouTubeWontOpen | DetailView.NavigationAlwaysFinishes |
