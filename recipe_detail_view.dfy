/**
 * The decisions of the recipe detail screen: what a failed page load shows,
 * how a video link is opened or replaced by a YouTube search, and the search
 * text built from the recipe. The screen's `errorMessage` and `showWebView`
 * state is a class; the web view, the probe request and
 * `UIApplication.open` are outside the model and their outcomes are inputs.
 */
module DetailView {
  import opened Wrappers
  import opened Foundation
  import opened Recipes
  import opened PercentEncoding
  import URLProvider

  // ---------------------------------------------------------------------------
  // A failed page load

  const NSURLErrorDomain: string := "NSURLErrorDomain"
  const NSURLErrorCannotFindHost: int := -1003
  const NSURLErrorCannotConnectToHost: int := -1004

  /** The `NSError` view of a load error. */
  datatype LoadError = LoadError(domain: string, code: int, localizedDescription: string)

  const NotFoundPrefix: string := "The recipe page couldn't be found. "
  const VideoInsteadMessage: string := NotFoundPrefix + "Opening the video instead."
  const SearchPromptMessage: string := NotFoundPrefix + "Would you like to search for it on YouTube?"
  const ProblemPrefix: string := "There was a problem loading the recipe: "

  /** A 404 response, or a host that cannot be found or reached. */
  predicate IsNotFound(error: LoadError, statusCode: Option<int>)
  {
    statusCode == Some(404)
    || (error.domain == NSURLErrorDomain
        && (error.code == NSURLErrorCannotFindHost || error.code == NSURLErrorCannotConnectToHost))
  }

  /**
   * A 404 counts whatever the error says; without one, only the two
   * host-unreachable codes of the URL loading domain count.
   */
  lemma NotFoundDecisionTable(error: LoadError, statusCode: Option<int>)
    ensures statusCode == Some(404) ==> IsNotFound(error, statusCode)
    ensures error.domain != NSURLErrorDomain ==> (IsNotFound(error, statusCode) <==> statusCode == Some(404))
    ensures statusCode != Some(404) ==>
      (IsNotFound(error, statusCode) <==>
        error.domain == NSURLErrorDomain && error.code in {NSURLErrorCannotFindHost, NSURLErrorCannotConnectToHost})
  {
  }

  // ---------------------------------------------------------------------------
  // Opening the video

  /** A YouTube watch or short link, which may point at an unavailable video. */
  predicate IsYouTubeVideoLink(url: Url)
  {
    Contains(url.absoluteString, "youtube.com/watch") || Contains(url.absoluteString, "youtu.be/")
  }

  /** Where `openVideo` goes: straight to a search, or probing the parsed link first. */
  datatype VideoRoute = SearchInstead | Probe(url: Url)

  function RouteVideo(videoUrl: string, p: Platform): (r: VideoRoute)
    ensures r.SearchInstead? <==>
      videoUrl == [] || p.parseURL(videoUrl).None? || IsYouTubeVideoLink(p.parseURL(videoUrl).value)
    ensures r.Probe? ==> Some(r.url) == p.parseURL(videoUrl) && !IsYouTubeVideoLink(r.url)
  {
    if videoUrl == [] then SearchInstead
    else match p.parseURL(videoUrl)
      case None => SearchInstead
      case Some(url) => if IsYouTubeVideoLink(url) then SearchInstead else Probe(url)
  }

  /** What the probe request reported: an HTTP status if any, and whether it failed. */
  datatype ProbeResponse = ProbeResponse(statusCode: Option<int>, failed: bool)

  /** After the probe, open the link (true) or search instead (false). */
  function ProbeOpens(r: ProbeResponse): (open: bool)
    ensures r.statusCode.Some? ==> (open <==> r.statusCode.value < 400)
    ensures r.statusCode.None? ==> (open <==> !r.failed)
  {
    match r.statusCode
    case Some(code) => !(code == 404 || code >= 400)
    case None => !r.failed
  }

  // ---------------------------------------------------------------------------
  // The YouTube search

  /** The trimmed name with every `&` spelled `and`. */
  function ProcessedName(name: string): (r: string)
    ensures '&' !in r
  {
    ReplaceChar(Trim(name), '&', "and")
  }

  const HowToMake: string := " recipe how to make"

  /** `"\(processedName) \(fullCuisineName) recipe how to make"`. */
  function YouTubeQuery(recipe: Recipe): string
  {
    ProcessedName(recipe.name) + " " + Trim(recipe.cuisine) + HowToMake
  }

  /** The text handed to `URL(string:)`. */
  function YouTubeSearchString(recipe: Recipe): string
  {
    URLProvider.YouTubeResultsPrefix + PercentEncode(YouTubeQuery(recipe), UrlQueryAllowed)
  }

  /** The message shown while searching, given the processed name and the trimmed cuisine. */
  function SearchingMessage(name: string, cuisine: string): string
  {
    "Searching for '" + name + "' (" + cuisine + ") recipes on YouTube..."
  }

  /**
   * The query starts with the processed name, which holds no `&`; the trimmed
   * cuisine follows unchanged; the fixed words come last.
   */
  lemma YouTubeQueryParts(recipe: Recipe)
    ensures var q := YouTubeQuery(recipe);
      var n := ProcessedName(recipe.name);
      && q[..|n|] == n && '&' !in q[..|n|]
      && OccursAt(q, Trim(recipe.cuisine), |n| + 1)
      && q[|q| - |HowToMake|..] == HowToMake
  {
    QueryLayout(ProcessedName(recipe.name), Trim(recipe.cuisine));
  }

  lemma QueryLayout(n: string, t: string)
    ensures var q := n + " " + t + HowToMake;
      && q[..|n|] == n
      && OccursAt(q, t, |n| + 1)
      && q[|q| - |HowToMake|..] == HowToMake
  {
    var q := n + " " + t + HowToMake;
    assert q[|n| + 1..|n| + 1 + |t|] == t;
  }

  /** An `&` between two `&`-free parts becomes the word `and`. */
  lemma AmpersandBecomesAnd(a: string, b: string)
    requires '&' !in a && '&' !in b
    ensures ReplaceChar(a + "&" + b, '&', "and") == a + "and" + b
  {
    ReplaceCharAppend(a + "&", b, '&', "and");
    ReplaceCharAppend(a, "&", '&', "and");
  }

  /**
   * A name such as `"Apple & Blackberry Crumble"`, already trimmed and with
   * one `&`, is searched for with `and` in its place.
   */
  lemma ProcessedNameSpellsOutAmpersand(a: string, b: string)
    requires '&' !in a && '&' !in b
    requires a != [] && !IsWhitespace(a[0])
    requires b != [] && !IsWhitespace(b[|b| - 1])
    ensures ProcessedName(a + "&" + b) == a + "and" + b
  {
    var name := a + "&" + b;
    assert name[0] == a[0] && name[|name| - 1] == b[|b| - 1];
    TrimmedAlready(name);
    AmpersandBecomesAnd(a, b);
  }

  /** The search text decodes back to the query after the results prefix. */
  lemma YouTubeSearchRoundTrip(recipe: Recipe)
    ensures YouTubeSearchString(recipe)[..|URLProvider.YouTubeResultsPrefix|] == URLProvider.YouTubeResultsPrefix
    ensures PercentDecode(YouTubeSearchString(recipe)[|URLProvider.YouTubeResultsPrefix|..])
      == Some(Utf8String(YouTubeQuery(recipe)))
  {
    AllowedSetsExcludePercent();
    DecodeEncode(YouTubeQuery(recipe), UrlQueryAllowed);
    assert YouTubeSearchString(recipe)[|URLProvider.YouTubeResultsPrefix|..]
      == PercentEncode(YouTubeQuery(recipe), UrlQueryAllowed);
  }

  // ---------------------------------------------------------------------------
  // Following `searchYouTube` and `openURLSafely` through their callbacks

  /** What the platform does with a URL: whether `canOpenURL` holds and whether `open` succeeds. */
  datatype Opener = Opener(canOpen: Url -> bool, opens: Url -> bool)

  /** The next call the screen makes: a search, opening a URL (with or without a search as fallback), or nothing. */
  datatype Action = SearchYouTube | OpenSafely(url: Url, fallbackToSearch: bool) | Finished

  /** One step as the source is written: a URL that cannot be opened always leads to a new search. */
  function StepAsWritten(a: Action, env: Opener, searchUrl: Url): (next: Action)
    ensures next.OpenSafely? <==> a.SearchYouTube?
    ensures next.OpenSafely? ==> next == OpenSafely(searchUrl, true)
    ensures next.SearchYouTube? <==> a.OpenSafely? && !(env.canOpen(a.url) && env.opens(a.url))
    ensures a.Finished? ==> next.Finished?
  {
    match a
    case SearchYouTube => OpenSafely(searchUrl, true)
    case OpenSafely(u, _) => if env.canOpen(u) && env.opens(u) then Finished else SearchYouTube
    case Finished => Finished
  }

  function RunAsWritten(a: Action, env: Opener, searchUrl: Url, n: nat): Action
    decreases n
  {
    if n == 0 then a else RunAsWritten(StepAsWritten(a, env, searchUrl), env, searchUrl, n - 1)
  }

  /** As written, a search URL that cannot be opened makes the screen search again without end. */
  lemma {:induction false} SearchRepeatsWhenYouTubeWontOpen(env: Opener, searchUrl: Url, n: nat)
    requires !(env.canOpen(searchUrl) && env.opens(searchUrl))
    ensures RunAsWritten(SearchYouTube, env, searchUrl, n) != Finished
    ensures RunAsWritten(OpenSafely(searchUrl, true), env, searchUrl, n) != Finished
  {
    if n > 0 {
      SearchRepeatsWhenYouTubeWontOpen(env, searchUrl, n - 1);
    }
  }

  /** One step with the fallback search made only for a video link, never for the search itself. */
  function Step(a: Action, env: Opener, searchUrl: Url): (next: Action)
    ensures next.OpenSafely? <==> a.SearchYouTube?
    ensures next.OpenSafely? ==> next == OpenSafely(searchUrl, false)
    ensures next.SearchYouTube? <==>
      a.OpenSafely? && a.fallbackToSearch && !(env.canOpen(a.url) && env.opens(a.url))
    ensures a.Finished? ==> next.Finished?
  {
    match a
    case SearchYouTube => OpenSafely(searchUrl, false)
    case OpenSafely(u, fallback) =>
      if env.canOpen(u) && env.opens(u) then Finished
      else if fallback then SearchYouTube
      else Finished
    case Finished => Finished
  }

  function Run(a: Action, env: Opener, searchUrl: Url, n: nat): Action
    decreases n
  {
    if n == 0 then a else Run(Step(a, env, searchUrl), env, searchUrl, n - 1)
  }

  /** Whatever the platform does, the corrected chain ends within three calls. */
  lemma NavigationAlwaysFinishes(a: Action, env: Opener, searchUrl: Url)
    ensures Run(a, env, searchUrl, 3) == Finished
  {
  }

  /** When the platform opens every URL, both chains agree step by step. */
  lemma CorrectionOnlyAffectsFailures(a: Action, env: Opener, searchUrl: Url)
    requires forall u :: env.canOpen(u) && env.opens(u)
    ensures Step(a, env, searchUrl).Finished? == StepAsWritten(a, env, searchUrl).Finished?
  {
  }

  // ---------------------------------------------------------------------------
  // The screen's state

  class RecipeDetailScreen {
    const recipe: Recipe
    var showWebView: bool
    var errorMessage: string

    constructor (recipe: Recipe)
      ensures this.recipe == recipe && showWebView && errorMessage == []
    {
      this.recipe := recipe;
      showWebView := true;
      errorMessage := [];
    }

    /**
     * `handleWebViewError`: hides the web view and explains why; returns
     * whether the video is then opened.
     */
    method HandleWebViewError(error: LoadError, statusCode: Option<int>) returns (opensVideo: bool)
      modifies this
      ensures !showWebView
      ensures opensVideo <==> IsNotFound(error, statusCode) && recipe.videoUrl != []
      ensures IsNotFound(error, statusCode) && recipe.videoUrl != [] ==> errorMessage == VideoInsteadMessage
      ensures IsNotFound(error, statusCode) && recipe.videoUrl == [] ==> errorMessage == SearchPromptMessage
      ensures !IsNotFound(error, statusCode) ==> errorMessage == ProblemPrefix + error.localizedDescription
    {
      var is404 := statusCode == Some(404);
      var isConnectionError := error.domain == NSURLErrorDomain &&
        (error.code == NSURLErrorCannotFindHost || error.code == NSURLErrorCannotConnectToHost);
      opensVideo := false;
      if is404 || isConnectionError {
        if recipe.videoUrl != [] {
          errorMessage := VideoInsteadMessage;
          showWebView := false;
          opensVideo := true;
        } else {
          errorMessage := SearchPromptMessage;
          showWebView := false;
        }
      } else {
        errorMessage := ProblemPrefix + error.localizedDescription;
        showWebView := false;
      }
    }

    /**
     * `searchYouTube`: returns the URL handed to `openURLSafely` and shows the
     * searching message; the force unwrap becomes a precondition.
     */
    method SearchYouTube(p: Platform) returns (url: Url)
      requires p.parseURL(YouTubeSearchString(recipe)).Some?
      modifies this
      ensures Some(url) == p.parseURL(YouTubeSearchString(recipe))
      ensures errorMessage == SearchingMessage(ProcessedName(recipe.name), Trim(recipe.cuisine))
      ensures showWebView == old(showWebView)
    {
      var text, name, cuisine := YouTubeSearchString(recipe), ProcessedName(recipe.name), Trim(recipe.cuisine);
      url := p.parseURL(text).value;
      errorMessage := SearchingMessage(name, cuisine);
    }
  }

  /** Every failed load hides the web view, and its message says "couldn't be found" exactly for a missing page. */
  method FailedLoadMessage(screen: RecipeDetailScreen, error: LoadError, statusCode: Option<int>)
    returns (notFound: bool)
    modifies screen
    ensures !screen.showWebView
    ensures notFound == IsNotFound(error, statusCode)
    ensures notFound <==>
      |NotFoundPrefix| <= |screen.errorMessage| && screen.errorMessage[..|NotFoundPrefix|] == NotFoundPrefix
  {
    var _ := screen.HandleWebViewError(error, statusCode);
    notFound := IsNotFound(error, statusCode);
    if !notFound {
      assert screen.errorMessage[3] == 'r' != NotFoundPrefix[3];
    } else {
      assert screen.errorMessage[..|NotFoundPrefix|] == NotFoundPrefix;
    }
  }
}
