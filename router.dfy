/** The URL checks of the bot's command layer and the choice `/add` makes between a category
    link and a text query. Sending replies and starting the first collection are not part of
    this model; what a command stores is returned as its outcome. */
module Router {
  import opened Text
  import Urls

  /** `looks_like_url`: the text, stripped and lower-cased, starts with an HTTP scheme. */
  function LooksLikeUrl(text: Option<string>): bool {
    var t := Lower(Strip(OrElse(text, "")));
    StartsWith(t, "http://") || StartsWith(t, "https://")
  }

  /** Stripping on the right keeps every character up to the last one that is not
      whitespace. */
  lemma {:induction false} StripRightKeeps(s: string, k: nat)
    requires k < |s| && !IsSpace(s[k])
    ensures |StripRight(s)| > k && StripRight(s)[..k + 1] == s[..k + 1]
    decreases |s|
  {
    if IsSpace(s[|s| - 1]) {
      StripRightKeeps(s[..|s| - 1], k);
    }
  }

  /** A text that starts with an HTTP scheme, written in any case, looks like a link, whatever
      follows. */
  lemma LooksLikeUrlAnyCase(scheme: string, rest: string)
    requires Lower(scheme) == "http://" || Lower(scheme) == "https://"
    ensures LooksLikeUrl(Some(scheme + rest))
  {
    SchemeEnds(scheme);
    var s := scheme + rest;
    var n := |scheme|;
    StripKeepsPrefix(s, n);
    var t := Strip(s);
    LowerPrefix(t, n);
    assert Lower(t)[..n] == Lower(scheme);
  }

  lemma SchemeEnds(scheme: string)
    requires Lower(scheme) == "http://" || Lower(scheme) == "https://"
    ensures |scheme| >= 7 && !IsSpace(scheme[0]) && !IsSpace(scheme[|scheme| - 1])
  {
    assert LowerChar(scheme[0]) == 'h' && LowerChar(scheme[|scheme| - 1]) == '/';
  }

  /** Stripping a text whose first `n` characters start and end with non-whitespace keeps them. */
  lemma StripKeepsPrefix(s: string, n: nat)
    requires 0 < n <= |s| && !IsSpace(s[0]) && !IsSpace(s[n - 1])
    ensures |Strip(s)| >= n && Strip(s)[..n] == s[..n]
  {
    assert StripLeft(s) == s;
    StripRightKeeps(s, n - 1);
  }

  lemma LowerPrefix(t: string, n: nat)
    requires n <= |t|
    ensures Lower(t)[..n] == Lower(t[..n])
  {
  }

  /** `urllib.parse.uses_params`: the schemes whose last path segment may carry `;params`. */
  const UsesParams: seq<string> := ["", "ftp", "hdl", "prospero", "http", "imap", "https", "shttp",
    "rtsp", "rtspu", "sip", "sips", "mms", "sftp", "tel"]

  /** The last index of `c` in `s`, or -1. */
  function LastIndex(s: string, c: char): (k: int)
    ensures -1 <= k < |s|
    ensures k >= 0 ==> s[k] == c
    ensures forall j :: k < j < |s| ==> s[j] != c
  {
    if |s| == 0 then -1
    else if s[|s| - 1] == c then |s| - 1
    else LastIndex(s[..|s| - 1], c)
  }

  /** The path `urlparse` reports: for a scheme in `uses_params`, the `;params` of the last
      segment are cut off. */
  function ParamsPath(scheme: string, path: string): (r: string)
    ensures |r| <= |path| && r == path[..|r|]
  {
    if scheme !in UsesParams || Urls.FindChar(path, ';') < 0 then path
    else
      var j := LastIndex(path, '/');
      var start := if j < 0 then 0 else j;
      var i := Urls.FindChar(path[start..], ';');
      if i < 0 then path else path[..start + i]
  }

  /** `urlparse(url.strip())` reduced to the network location and the path; `None` for
      unbalanced brackets, the one case where `Urls.Split` raises. */
  function Locate(url: string): Option<(string, string)> {
    var p := Urls.Split(Strip(url));
    if p.None? then None else Some((p.value.netloc, ParamsPath(p.value.scheme, p.value.path)))
  }

  /** The non-empty "/"-segments of a path. */
  function Segments(path: string): (r: seq<string>)
    ensures forall k :: 0 <= k < |r| ==> r[k] != "" && forall i :: 0 <= i < |r[k]| ==> r[k][i] != '/'
  {
    var r := NonEmpty(SplitOn(path, '/'));
    assert forall k :: 0 <= k < |r| ==> r[k] in r;
    r
  }

  /** `is_supported_avito_url`: the host mentions avito.ru and the path has two non-empty
      segments at least. */
  function IsSupportedAvitoUrl(url: string): bool {
    SupportedAt(Locate(url))
  }

  predicate SupportedAt(loc: Option<(string, string)>) {
    loc.Some? && Contains(loc.value.0, "avito.ru") && |Segments(loc.value.1)| >= 2
  }

  /** `parse_avito_city_slug`: the first path segment of a supported link. */
  function ParseCitySlug(url: string): Option<string> {
    SlugAt(Locate(url))
  }

  function SlugAt(loc: Option<(string, string)>): Option<string> {
    if loc.None? || !Contains(loc.value.0, "avito.ru") then None
    else
      var parts := Segments(loc.value.1);
      if |parts| < 2 then None else Some(parts[0])
  }

  /** A city is found exactly for the supported links, and it is the first of at least two
      non-empty segments of the path. */
  lemma CitySlugOfSupported(url: string)
    ensures ParseCitySlug(url).Some? <==> IsSupportedAvitoUrl(url)
    ensures ParseCitySlug(url).Some? ==>
      var parts := Segments(Locate(url).value.1);
      |parts| >= 2 && ParseCitySlug(url).value == parts[0] && parts[0] != ""
  {
  }

  /** A well-formed link with a host is located at that host and its path. */
  lemma LocateUnsplit(p: Urls.Parts)
    requires Urls.WellFormed(p) && |p.netloc| > 0
    requires Strip(Urls.Unsplit(p)) == Urls.Unsplit(p)
    ensures Locate(Urls.Unsplit(p)) == Some((p.netloc, ParamsPath(p.scheme, p.path)))
  {
    Urls.SplitUnsplit(p);
  }

  /** The non-empty segments of "/city/section" are the city and the section. */
  lemma SegmentsOfTwo(city: string, section: string)
    requires city != "" && section != ""
    requires Urls.NoChar(city, '/') && Urls.NoChar(section, '/')
    ensures Segments("/" + city + "/" + section) == [city, section]
  {
    SplitOnTwo(city, section);
    var parts := [""] + [city, section];
    assert parts[0] == "" && parts[1..] == [city, section];
    Urls.NonEmptyAll([city, section]);
  }

  lemma SplitOnTwo(city: string, section: string)
    requires Urls.NoChar(city, '/') && Urls.NoChar(section, '/')
    ensures SplitOn("/" + city + "/" + section, '/') == [""] + [city, section]
  {
    var tail := city + ['/'] + section;
    var path := "" + ['/'] + tail;
    assert path == "/" + city + "/" + section;
    Urls.SplitOnNone(section, '/');
    Urls.SplitOnFirst(city, section, '/');
    Urls.SplitOnFirst("", tail, '/');
  }

  /** A path without ';' keeps all of its last segment. */
  lemma ParamsPathPlain(scheme: string, path: string)
    requires Urls.NoChar(path, ';')
    ensures ParamsPath(scheme, path) == path
  {
  }

  /** A link located on an avito.ru host at "/city/section" is supported and names its
      city. */
  lemma CitySlugOfPath(host: string, city: string, section: string)
    requires Contains(host, "avito.ru")
    requires city != "" && section != "" && Urls.NoChar(city, '/') && Urls.NoChar(section, '/')
    ensures SupportedAt(Some((host, "/" + city + "/" + section)))
    ensures SlugAt(Some((host, "/" + city + "/" + section))) == Some(city)
  {
    SegmentsOfTwo(city, section);
  }

  /** A category link `scheme://host/city/section?query`, with a host on avito.ru, is
      supported and names its city. */
  lemma CitySlugOfLink(p: Urls.Parts, city: string, section: string)
    requires Urls.WellFormed(p) && Contains(p.netloc, "avito.ru")
    requires Strip(Urls.Unsplit(p)) == Urls.Unsplit(p)
    requires p.path == "/" + city + "/" + section && city != "" && section != ""
    requires Urls.NoChar(city, '/') && Urls.NoChar(section, '/') && Urls.NoChar(p.path, ';')
    ensures IsSupportedAvitoUrl(Urls.Unsplit(p))
    ensures ParseCitySlug(Urls.Unsplit(p)) == Some(city)
  {
    LocateUnsplit(p);
    ParamsPathPlain(p.scheme, p.path);
    CitySlugOfPath(p.netloc, city, section);
  }

  // ---------------------------------------------------------------------
  // The commands
  // ---------------------------------------------------------------------

  /** The argument of a command: `text.split(maxsplit=1)[1].strip()` when there is one. */
  function CommandArg(text: Option<string>): Option<string> {
    var t := StripLeft(OrElse(text, ""));
    var w := TakeWord(t);
    var rest := Strip(t[|w|..]);
    if |w| == 0 || |rest| == 0 then None else Some(rest)
  }

  /** Where `/add` sends its argument. */
  datatype AddRoute = Usage | ToCategory(url: string) | ToQuery(query: string)

  /** `add_auto`: the usage text without an argument, the category path for a link, the query
      path for anything else. */
  function AddAuto(text: Option<string>): AddRoute {
    var arg := CommandArg(text);
    if arg.None? then Usage
    else if LooksLikeUrl(Some(arg.value)) then ToCategory(arg.value)
    else ToQuery(arg.value)
  }

  /** What adding a source does: it is refused, or a search is stored with its city. */
  datatype Outcome = Refused(reason: string) | Stored(query: string, citySlug: string)

  const BadLink := "Нужна корректная ссылка avito.ru на категорию/раздел."
  const TooShort := "Запрос слишком короткий."

  /** `_add_category`: only a supported avito.ru link that looks like a URL is stored, with
      its city, or "url" when no city is found. */
  function AddCategory(url: string): Outcome {
    if !LooksLikeUrl(Some(url)) || !IsSupportedAvitoUrl(url) then Refused(BadLink)
    else
      var slug := ParseCitySlug(url);
      Stored(url, if slug.Some? && slug.value != "" then slug.value else "url")
  }

  /** `_add_query`: a query shorter than two characters is refused before anything is stored;
      a longer one is stored with the configured city. */
  function AddQuery(query: string, defaultCity: string): Outcome {
    if |query| < 2 then Refused(TooShort) else Stored(query, defaultCity)
  }

  /** `/add` takes the category path exactly for an argument that looks like a link. */
  lemma AddAutoDispatch(text: Option<string>)
    ensures AddAuto(text).Usage? <==> CommandArg(text).None?
    ensures AddAuto(text).ToCategory? <==> CommandArg(text).Some? && LooksLikeUrl(CommandArg(text))
    ensures AddAuto(text).ToQuery? <==> CommandArg(text).Some? && !LooksLikeUrl(CommandArg(text))
    ensures !AddAuto(text).Usage? ==>
      (if AddAuto(text).ToCategory? then AddAuto(text).url else AddAuto(text).query) == CommandArg(text).value
  {
  }

  /** A category is stored exactly for a supported link that looks like a URL, and always with
      the city the link names: the "url" fallback is never taken. */
  lemma AddCategoryStores(url: string)
    ensures AddCategory(url).Stored? <==> LooksLikeUrl(Some(url)) && IsSupportedAvitoUrl(url)
    ensures AddCategory(url).Stored? ==> AddCategory(url) == Stored(url, ParseCitySlug(url).value)
  {
    CitySlugOfSupported(url);
    if AddCategory(url).Stored? {
      var parts := Segments(Locate(url).value.1);
      assert parts[1] != "";
      assert ParseCitySlug(url).value == parts[0];
    }
  }

  /** A query is stored exactly when it has two characters or more. */
  lemma AddQueryGuard(query: string, defaultCity: string)
    ensures AddQuery(query, defaultCity).Stored? <==> |query| >= 2
    ensures AddQuery(query, defaultCity).Stored? ==> AddQuery(query, defaultCity) == Stored(query, defaultCity)
  {
  }
}
