/**
 * The older `DefaultURLProvider`: the same link fallbacks, but the search
 * text is the raw link (or `"<name> <cuisine> recipe video"`), encoded with
 * `CharacterSet.urlQueryAllowed`, and the search URL is force-unwrapped.
 */
module LegacyURLProvider {
  import opened Wrappers
  import opened Foundation
  import opened Recipes
  import opened PercentEncoding
  import URLProvider

  /** `youtubeSearchURL(for:)`'s text: the results prefix and the encoded string. */
  function YouTubeSearchString(s: string): string
  {
    URLProvider.YouTubeResultsPrefix + PercentEncode(s, UrlQueryAllowed)
  }

  /** `googleSearchURL(for:)`'s text: the search prefix and the encoded string. */
  function GoogleSearchString(s: string): string
  {
    URLProvider.GoogleSearchPrefix + PercentEncode(s, UrlQueryAllowed)
  }

  /** `"\(recipe.name) \(recipe.cuisine) recipe video"`. */
  function SearchQuery(recipe: Recipe): string
  {
    recipe.name + " " + recipe.cuisine + " recipe video"
  }

  /**
   * `youtubeSearchURL(for:)`; the force unwrap becomes a precondition. The
   * URL is parsed from the results prefix followed by text that decodes back
   * to the UTF-8 bytes of `s`.
   */
  function YouTubeSearchURL(s: string, p: Platform): (r: Url)
    requires p.parseURL(YouTubeSearchString(s)).Some?
    ensures var t := YouTubeSearchString(s); var n := |URLProvider.YouTubeResultsPrefix|;
      && Some(r) == p.parseURL(t)
      && n <= |t| && t[..n] == URLProvider.YouTubeResultsPrefix
      && PercentDecode(t[n..]) == Some(Utf8String(s))
  {
    SearchTextRoundTrip(s);
    p.parseURL(YouTubeSearchString(s)).value
  }

  /**
   * `googleSearchURL(for:)`; the force unwrap becomes a precondition. The URL
   * is parsed from the search prefix followed by text that decodes back to
   * the UTF-8 bytes of `s`.
   */
  function GoogleSearchURL(s: string, p: Platform): (r: Url)
    requires p.parseURL(GoogleSearchString(s)).Some?
    ensures var t := GoogleSearchString(s); var n := |URLProvider.GoogleSearchPrefix|;
      && Some(r) == p.parseURL(t)
      && n <= |t| && t[..n] == URLProvider.GoogleSearchPrefix
      && PercentDecode(t[n..]) == Some(Utf8String(s))
  {
    SearchTextRoundTrip(s);
    p.parseURL(GoogleSearchString(s)).value
  }

  /** `recipeSiteURL(from:)`: the link, or a Google search for the link's raw text. */
  function RecipeSiteURL(s: string, p: Platform): (r: Url)
    requires p.parseURL(s).Some? || p.parseURL(GoogleSearchString(s)).Some?
    ensures p.parseURL(s).Some? ==> Some(r) == p.parseURL(s)
    ensures p.parseURL(s).None? ==> Some(r) == p.parseURL(GoogleSearchString(s))
  {
    match p.parseURL(s)
    case Some(url) => url
    case None => GoogleSearchURL(s, p)
  }

  /** `videoURL(from:)`: none for an empty link, else the link or a YouTube search for its raw text. */
  function VideoURL(s: string, p: Platform): (r: Option<Url>)
    requires s == [] || p.parseURL(s).Some? || p.parseURL(YouTubeSearchString(s)).Some?
    ensures r.None? <==> s == []
    ensures s != [] && p.parseURL(s).Some? ==> r == p.parseURL(s)
    ensures s != [] && p.parseURL(s).None? ==> r == p.parseURL(YouTubeSearchString(s))
  {
    if s == [] then None
    else match p.parseURL(s)
      case Some(url) => Some(url)
      case None => Some(YouTubeSearchURL(s, p))
  }

  /**
   * `searchURL(for:)`: always a YouTube search, whose query decodes back to
   * the recipe's name, a space, its cuisine and " recipe video".
   */
  function SearchURL(recipe: Recipe, p: Platform): (r: Url)
    requires p.parseURL(YouTubeSearchString(SearchQuery(recipe))).Some?
    ensures var t := YouTubeSearchString(SearchQuery(recipe)); var n := |URLProvider.YouTubeResultsPrefix|;
      && Some(r) == p.parseURL(t)
      && n <= |t| && t[..n] == URLProvider.YouTubeResultsPrefix
      && PercentDecode(t[n..]) == Some(Utf8String(recipe.name + " " + recipe.cuisine + " recipe video"))
  {
    YouTubeSearchURL(SearchQuery(recipe), p)
  }

  /**
   * The fallback searches carry the raw text faithfully: percent-decoding
   * what follows the prefix gives back its UTF-8 bytes.
   */
  lemma SearchTextRoundTrip(s: string)
    ensures YouTubeSearchString(s)[..|URLProvider.YouTubeResultsPrefix|] == URLProvider.YouTubeResultsPrefix
    ensures GoogleSearchString(s)[..|URLProvider.GoogleSearchPrefix|] == URLProvider.GoogleSearchPrefix
    ensures PercentDecode(YouTubeSearchString(s)[|URLProvider.YouTubeResultsPrefix|..]) == Some(Utf8String(s))
    ensures PercentDecode(GoogleSearchString(s)[|URLProvider.GoogleSearchPrefix|..]) == Some(Utf8String(s))
  {
    AllowedSetsExcludePercent();
    DecodeEncode(s, UrlQueryAllowed);
    assert YouTubeSearchString(s)[|URLProvider.YouTubeResultsPrefix|..] == PercentEncode(s, UrlQueryAllowed);
    assert GoogleSearchString(s)[|URLProvider.GoogleSearchPrefix|..] == PercentEncode(s, UrlQueryAllowed);
  }

  /**
   * `urlQueryAllowed` keeps `&`: a recipe named with `&` puts a bare `&` into
   * the query string, where it separates parameters.
   */
  lemma AmpersandIsNotEscaped(recipe: Recipe)
    requires '&' in recipe.name
    ensures '&' in PercentEncode(SearchQuery(recipe), UrlQueryAllowed)
  {
    var i :| 0 <= i < |recipe.name| && recipe.name[i] == '&';
    var q := SearchQuery(recipe);
    var before := recipe.name[..i];
    var after := recipe.name[i + 1..] + " " + recipe.cuisine + " recipe video";
    assert q == before + ("&" + after);
    EncodeAppend(before, "&" + after, UrlQueryAllowed);
    EncodeAppend("&", after, UrlQueryAllowed);
    assert PercentEncode("&", UrlQueryAllowed) == "&";
  }

  /** The older and newer providers agree on when a video link is absent. */
  lemma VideoURLAbsentIffEmptyInBoth(s: string, recipe: Recipe, p: Platform)
    requires s == [] || p.parseURL(s).Some? || p.parseURL(YouTubeSearchString(s)).Some?
    requires s == [] || p.parseURL(s).Some? || URLProvider.SearchURLDefined(recipe, true, p)
    ensures VideoURL(s, p).None? <==> URLProvider.VideoURL(s, recipe, p).None?
    ensures p.parseURL(s).Some? && s != [] ==> VideoURL(s, p) == URLProvider.VideoURL(s, recipe, p)
  {
  }
}
