/**
 * `DefaultURLProvider` (the protocol-based one): a recipe's site and video
 * links, with a web search for the recipe as the fallback when a link does
 * not parse. The search text is percent-encoded against an explicit set:
 * ASCII letters and digits, `- . _ ~` and the space.
 */
module URLProvider {
  import opened Wrappers
  import opened Foundation
  import opened Recipes
  import opened PercentEncoding

  const YouTubeResultsPrefix: string := "https://www.youtube.com/results?search_query="
  const GoogleSearchPrefix: string := "https://www.google.com/search?q="
  const YouTubeFallback: string := "https://www.youtube.com/results?search_query=recipe+video"
  const GoogleFallback: string := "https://www.google.com/search?q=recipe"

  /** `"\(recipe.name) \(recipe.cuisine) \(isVideoSearch ? "recipe video" : "recipe")"`. */
  function SearchQuery(recipe: Recipe, isVideoSearch: bool): string
  {
    recipe.name + " " + recipe.cuisine + " " + (if isVideoSearch then "recipe video" else "recipe")
  }

  function Prefix(isVideoSearch: bool): string
  {
    if isVideoSearch then YouTubeResultsPrefix else GoogleSearchPrefix
  }

  function Fallback(isVideoSearch: bool): string
  {
    if isVideoSearch then YouTubeFallback else GoogleFallback
  }

  /** The text handed to `URL(string:)`: the prefix, then the encoded query. */
  function SearchURLString(recipe: Recipe, isVideoSearch: bool): string
  {
    Prefix(isVideoSearch) + PercentEncode(SearchQuery(recipe, isVideoSearch), SearchQueryAllowed)
  }

  /** `searchURL` returns without trapping: the assembled text or the fixed fallback parses. */
  predicate SearchURLDefined(recipe: Recipe, isVideoSearch: bool, p: Platform)
  {
    p.parseURL(SearchURLString(recipe, isVideoSearch)).Some? || p.parseURL(Fallback(isVideoSearch)).Some?
  }

  /** `searchURL(for:isVideoSearch:)`. */
  function SearchURL(recipe: Recipe, isVideoSearch: bool, p: Platform): (r: Url)
    requires SearchURLDefined(recipe, isVideoSearch, p)
    ensures p.parseURL(SearchURLString(recipe, isVideoSearch)).Some? ==>
      Some(r) == p.parseURL(SearchURLString(recipe, isVideoSearch))
    ensures p.parseURL(SearchURLString(recipe, isVideoSearch)).None? ==> Some(r) == p.parseURL(Fallback(isVideoSearch))
  {
    match p.parseURL(SearchURLString(recipe, isVideoSearch))
    case Some(url) => url
    case None => p.parseURL(Fallback(isVideoSearch)).value
  }

  /** `recipeSiteURL(from:for:)`: the link itself when it parses, else a Google search. */
  function RecipeSiteURL(s: string, recipe: Recipe, p: Platform): (r: Url)
    requires p.parseURL(s).Some? || SearchURLDefined(recipe, false, p)
    ensures p.parseURL(s).Some? ==> Some(r) == p.parseURL(s)
    ensures p.parseURL(s).None? ==> r == SearchURL(recipe, false, p)
  {
    match p.parseURL(s)
    case Some(url) => url
    case None => SearchURL(recipe, false, p)
  }

  /** `videoURL(from:for:)`: none for an empty link, else the link or a YouTube search. */
  function VideoURL(s: string, recipe: Recipe, p: Platform): (r: Option<Url>)
    requires s == [] || p.parseURL(s).Some? || SearchURLDefined(recipe, true, p)
    ensures r.None? <==> s == []
    ensures s != [] && p.parseURL(s).Some? ==> r == p.parseURL(s)
    ensures s != [] && p.parseURL(s).None? ==> r == Some(SearchURL(recipe, true, p))
  {
    if s == [] then None
    else match p.parseURL(s)
      case Some(url) => Some(url)
      case None => Some(SearchURL(recipe, true, p))
  }

  // ---------------------------------------------------------------------------
  // The search text

  /** The query names the recipe, then the cuisine, and asks for a video only in a video search. */
  lemma SearchQueryShape(recipe: Recipe, isVideoSearch: bool)
    ensures SearchQuery(recipe, isVideoSearch)[..|recipe.name| + 1] == recipe.name + " "
    ensures isVideoSearch ==>
      SearchQuery(recipe, isVideoSearch) == recipe.name + " " + recipe.cuisine + " recipe video"
    ensures !isVideoSearch ==>
      SearchQuery(recipe, isVideoSearch) == recipe.name + " " + recipe.cuisine + " recipe"
  {
    var n, c := recipe.name, recipe.cuisine;
    var words := if isVideoSearch then "recipe video" else "recipe";
    var tail := c + " " + words;
    assert SearchQuery(recipe, isVideoSearch) == (n + " ") + tail;
    assert ((n + " ") + tail)[..|n| + 1] == n + " ";
    if isVideoSearch {
      assert tail == c + " recipe video";
      assert n + " " + c + " recipe video" == (n + " ") + tail;
    } else {
      assert tail == c + " recipe";
      assert n + " " + c + " recipe" == (n + " ") + tail;
    }
  }

  /**
   * The encoded query cannot end the parameter early: it holds no `&`, `#`,
   * `=` or `+`, and percent-decoding it gives back the UTF-8 bytes of the query.
   */
  lemma EncodedQueryRoundTrip(recipe: Recipe, isVideoSearch: bool)
    ensures var e := PercentEncode(SearchQuery(recipe, isVideoSearch), SearchQueryAllowed);
      && '&' !in e && '#' !in e && '=' !in e && '+' !in e
      && PercentDecode(e) == Some(Utf8String(SearchQuery(recipe, isVideoSearch)))
  {
    var q := SearchQuery(recipe, isVideoSearch);
    EncodedExcludes(q, SearchQueryAllowed, '&');
    EncodedExcludes(q, SearchQueryAllowed, '#');
    EncodedExcludes(q, SearchQueryAllowed, '=');
    EncodedExcludes(q, SearchQueryAllowed, '+');
    DecodeEncode(q, SearchQueryAllowed);
  }

  /** The text handed to the parser starts with the prefix the search kind selects. */
  lemma SearchURLStringHasPrefix(recipe: Recipe, isVideoSearch: bool)
    ensures |Prefix(isVideoSearch)| <= |SearchURLString(recipe, isVideoSearch)|
    ensures SearchURLString(recipe, isVideoSearch)[..|Prefix(isVideoSearch)|] == Prefix(isVideoSearch)
    ensures isVideoSearch ==> Prefix(isVideoSearch) == YouTubeResultsPrefix
    ensures !isVideoSearch ==> Prefix(isVideoSearch) == GoogleSearchPrefix
  {
  }

  /** Letters, digits and spaces pass through the encoding unchanged. */
  lemma PlainQueryUnchanged(recipe: Recipe, isVideoSearch: bool)
    requires forall i :: 0 <= i < |recipe.name| ==> IsAsciiAlphanumeric(recipe.name[i]) || recipe.name[i] == ' '
    requires forall i :: 0 <= i < |recipe.cuisine| ==> IsAsciiAlphanumeric(recipe.cuisine[i]) || recipe.cuisine[i] == ' '
    ensures SearchURLString(recipe, isVideoSearch) == Prefix(isVideoSearch) + SearchQuery(recipe, isVideoSearch)
  {
    var q := SearchQuery(recipe, isVideoSearch);
    forall i | 0 <= i < |q| ensures SearchQueryAllowed(q[i]) {
      var tail := " " + (if isVideoSearch then "recipe video" else "recipe");
      assert q == recipe.name + " " + recipe.cuisine + tail;
      if i < |recipe.name| {
        assert q[i] == recipe.name[i];
      } else if i == |recipe.name| {
      } else if i < |recipe.name| + 1 + |recipe.cuisine| {
        assert q[i] == recipe.cuisine[i - |recipe.name| - 1];
      } else {
        assert q[i] == tail[i - |recipe.name| - 1 - |recipe.cuisine|];
      }
    }
    EncodeAllowedUnchanged(q, SearchQueryAllowed);
  }
}
