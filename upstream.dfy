/**
 * The calls to the two media managers made by `addToRadarr`, `addToSonarr`
 * and `doPost`: the lookup and add URLs, the add payload, the 2xx rule and
 * the lookup-then-add sequence. The network, the JSON decoding of the lookup
 * reply and `url.QueryEscape` are parameters (`Net`), not modelled.
 */
module Upstream {
  import opened Wrappers
  import opened Strings

  /** Which manager a request goes to: the movie manager or the series manager. */
  datatype Kind = Movie | Series

  /** The API resource name of each kind. */
  function Resource(k: Kind): string {
    match k
    case Movie => "movie"
    case Series => "series"
  }

  /** A decoded JSON value, as Go's `any` holds it after `json.Unmarshal`. */
  datatype Json =
    | JNull
    | JBool(b: bool)
    | JNumber(n: int)
    | JString(s: string)
    | JArray(items: seq<Json>)
    | JObject(fields: map<string, Json>)

  /** A JSON object: one lookup result, or an add payload (`map[string]any`). */
  type Record = map<string, Json>

  /** Go's `m[key]` on a `map[string]any`: a missing key reads as `nil`. */
  function Field(m: Record, key: string): Json {
    if key in m then m[key] else JNull
  }

  /** What `doGet` followed by `json.Unmarshal` into `[]map[string]any` produces. */
  datatype LookupOutcome = TransportError | Undecodable | Decoded(results: seq<Record>)

  /**
   * Everything outside the relay: `url.QueryEscape`, a GET (URL, API key)
   * and a POST (URL, API key, payload) whose answer is a status code, or
   * `None` when the request did not complete.
   */
  datatype Net = Net(
    queryEscape: string -> string,
    get: (string, string) -> LookupOutcome,
    post: (string, string, Record) -> Option<int>)

  /** `{base}/api/v3/{movie|series}`: where an add is posted. */
  function PostUrl(base: string, k: Kind): (u: string)
    ensures HasPrefix(u, base) && HasSuffix(u, Resource(k))
    ensures u[|base|..] == "/api/v3/" + Resource(k)
  {
    base + "/api/v3/" + Resource(k)
  }

  /** `{base}/api/v3/{movie|series}/lookup?term={escaped term}`: the catalog search. */
  function LookupUrl(base: string, k: Kind, term: string, queryEscape: string -> string): (u: string)
    ensures HasPrefix(u, PostUrl(base, k))
    ensures u[|PostUrl(base, k)|..] == "/lookup?term=" + queryEscape(term)
  {
    base + "/api/v3/" + Resource(k) + "/lookup?term=" + queryEscape(term)
  }

  /**
   * A base URL without a trailing `/` joins the API path with exactly one `/`:
   * the request URL has `/` at the join and no `/` just before it.
   */
  lemma SingleSlashJoin(base: string, k: Kind, term: string, queryEscape: string -> string)
    requires base != [] && base[|base| - 1] != '/'
    ensures var u := PostUrl(base, k); u[|base| - 1] != '/' && u[|base|] == '/'
    ensures var u := LookupUrl(base, k, term, queryEscape); u[|base| - 1] != '/' && u[|base|] == '/'
  {
    var u := PostUrl(base, k);
    assert u[..|base|] == base;
    var v := LookupUrl(base, k, term, queryEscape);
    assert v[..|u|] == u;
    assert v[..|base|] == u[..|base|];
  }

  /** The fields an add payload carries for each kind. */
  function PayloadKeys(k: Kind): set<string> {
    match k
    case Movie =>
      {"title", "titleSlig", "images", "imdbId", "year", "rootFolderPath", "monitored",
       "qualityProfileId", "addOptions"}
    case Series =>
      {"title", "titleSlug", "images", "seasons", "rootFolderPath", "monitored",
       "qualityProfileId", "addOptions"}
  }

  /** The option flag sent in `addOptions`. */
  function SearchOption(k: Kind): string {
    match k
    case Movie => "searchForMovie"
    case Series => "searchForMissingEpisodes"
  }

  /** The fields every add payload shares: the root folder, `monitored`, profile 1, the search option. */
  predicate CommonFields(k: Kind, p: Record, rootFolder: string) {
    && "rootFolderPath" in p && p["rootFolderPath"] == JString(rootFolder)
    && "monitored" in p && p["monitored"] == JBool(true)
    && "qualityProfileId" in p && p["qualityProfileId"] == JNumber(1)
    && "addOptions" in p && p["addOptions"] == JObject(map[SearchOption(k) := JBool(true)])
  }

  /**
   * The movie payload: "title", "images" and "year" copied, `titleSlug` sent
   * under the misspelt key "titleSlig", and the `tmdbId` value sent under "imdbId".
   */
  function MoviePayload(first: Record, rootFolder: string): (p: Record)
    ensures p.Keys == PayloadKeys(Movie) && CommonFields(Movie, p, rootFolder)
    ensures p["title"] == Field(first, "title") && p["images"] == Field(first, "images")
    ensures p["titleSlig"] == Field(first, "titleSlug") && p["imdbId"] == Field(first, "tmdbId")
    ensures p["year"] == Field(first, "year")
  {
    map[
      "title" := Field(first, "title"),
      "titleSlig" := Field(first, "titleSlug"),
      "images" := Field(first, "images"),
      "imdbId" := Field(first, "tmdbId"),
      "year" := Field(first, "year"),
      "rootFolderPath" := JString(rootFolder),
      "monitored" := JBool(true),
      "qualityProfileId" := JNumber(1),
      "addOptions" := JObject(map["searchForMovie" := JBool(true)])]
  }

  /** The series payload: "title", "titleSlug", "images" and "seasons" copied. */
  function SeriesPayload(first: Record, rootFolder: string): (p: Record)
    ensures p.Keys == PayloadKeys(Series) && CommonFields(Series, p, rootFolder)
    ensures p["title"] == Field(first, "title") && p["images"] == Field(first, "images")
    ensures p["titleSlug"] == Field(first, "titleSlug") && p["seasons"] == Field(first, "seasons")
  {
    map[
      "title" := Field(first, "title"),
      "titleSlug" := Field(first, "titleSlug"),
      "images" := Field(first, "images"),
      "seasons" := Field(first, "seasons"),
      "rootFolderPath" := JString(rootFolder),
      "monitored" := JBool(true),
      "qualityProfileId" := JNumber(1),
      "addOptions" := JObject(map["searchForMissingEpisodes" := JBool(true)])]
  }

  /** The add payload built from the first lookup result. */
  function Payload(k: Kind, first: Record, rootFolder: string): (p: Record)
    ensures p.Keys == PayloadKeys(k) && CommonFields(k, p, rootFolder)
    ensures p["title"] == Field(first, "title") && p["images"] == Field(first, "images")
  {
    match k
    case Movie => MoviePayload(first, rootFolder)
    case Series => SeriesPayload(first, rootFolder)
  }

  /** The status test of `doPost`. */
  predicate IsSuccessStatus(code: int) {
    code >= 200 && code < 300
  }

  /**
   * `doPost`: true exactly when the POST completed with a 2xx status; a
   * transport error and a non-2xx status both give false.
   */
  function DoPost(url: string, apiKey: string, payload: Record, net: Net): (ok: bool)
    ensures ok <==> net.post(url, apiKey, payload).Some? && 200 <= net.post(url, apiKey, payload).value < 300
  {
    match net.post(url, apiKey, payload)
    case None => false
    case Some(code) => IsSuccessStatus(code)
  }

  /**
   * The edges of the 2xx rule: 200 and 299 succeed; 199, 300 and a POST
   * that never completed fail.
   */
  lemma DoPostBoundaries(url: string, apiKey: string, payload: Record, net: Net)
    ensures net.post(url, apiKey, payload) == None ==> !DoPost(url, apiKey, payload, net)
    ensures net.post(url, apiKey, payload) == Some(199) ==> !DoPost(url, apiKey, payload, net)
    ensures net.post(url, apiKey, payload) == Some(200) ==> DoPost(url, apiKey, payload, net)
    ensures net.post(url, apiKey, payload) == Some(299) ==> DoPost(url, apiKey, payload, net)
    ensures net.post(url, apiKey, payload) == Some(300) ==> !DoPost(url, apiKey, payload, net)
  {
  }

  /**
   * The body shared by `addToRadarr` and `addToSonarr`: look the title up at
   * `base` with `apiKey`; on a transport error, an undecodable reply or an
   * empty result list, fail; otherwise post the payload built from the first
   * result and succeed exactly when that POST gets a 2xx status.
   */
  function AddTitle(k: Kind, base: string, apiKey: string, rootFolder: string, title: string, net: Net): (ok: bool)
    ensures var found := net.get(LookupUrl(base, k, title, net.queryEscape), apiKey);
      ok <==> && found.Decoded? && |found.results| > 0
              && DoPost(PostUrl(base, k), apiKey, Payload(k, found.results[0], rootFolder), net)
  {
    var lookupUrl := LookupUrl(base, k, title, net.queryEscape);
    match net.get(lookupUrl, apiKey)
    case TransportError => false
    case Undecodable => false
    case Decoded(results) =>
      if |results| == 0 then false
      else
        var payload := Payload(k, results[0], rootFolder);
        DoPost(PostUrl(base, k), apiKey, payload, net)
  }

  /**
   * Without a usable lookup result the add is never posted: the outcome is
   * false and does not depend on what the POST would have answered.
   */
  lemma NoResultsNoPost(k: Kind, base: string, apiKey: string, rootFolder: string, title: string, net: Net,
                        post': (string, string, Record) -> Option<int>)
    requires var found := net.get(LookupUrl(base, k, title, net.queryEscape), apiKey);
      !found.Decoded? || found.results == []
    ensures !AddTitle(k, base, apiKey, rootFolder, title, net)
    ensures AddTitle(k, base, apiKey, rootFolder, title, net.(post := post')) == AddTitle(k, base, apiKey, rootFolder, title, net)
  {
  }

  /** Only the first lookup result matters: later results never change the outcome. */
  lemma OnlyFirstResultUsed(k: Kind, base: string, apiKey: string, rootFolder: string, title: string,
                            net: Net, net': Net)
    requires net.queryEscape == net'.queryEscape && net.post == net'.post
    requires var u := LookupUrl(base, k, title, net.queryEscape);
      && net.get(u, apiKey).Decoded? && net'.get(u, apiKey).Decoded?
      && |net.get(u, apiKey).results| > 0 && |net'.get(u, apiKey).results| > 0
      && net.get(u, apiKey).results[0] == net'.get(u, apiKey).results[0]
    ensures AddTitle(k, base, apiKey, rootFolder, title, net) == AddTitle(k, base, apiKey, rootFolder, title, net')
  {
  }
}
