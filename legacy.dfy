/**
 * The original single-file relay, main.go at the repository root: six
 * package-level variables read verbatim from the environment, a start-up
 * check on the four credentials, and its own copy of the `/sms` handler and
 * of the two add operations. Nothing is trimmed and no root path gets a
 * default here.
 */
module Legacy {
  import opened Wrappers
  import opened Strings
  import opened Configuration
  import opened Upstream
  import opened Sms

  /** The six package-level variables. */
  datatype Globals = Globals(
    sonarrURL: string, sonarrAPI: string,
    radarrURL: string, radarrAPI: string,
    tvRootPath: string, movieRootPath: string)

  /** The variables as initialised by `os.Getenv` when the program starts. */
  function GlobalsFrom(env: Env): Globals {
    Globals(
      Getenv(env, "SONARR_URL"), Getenv(env, "SONARR_API"),
      Getenv(env, "RADARR_URL"), Getenv(env, "RADARR_API"),
      Getenv(env, "TV_ROOT_PATH"), Getenv(env, "MOVIE_ROOT_PATH"))
  }

  /**
   * The legacy variables are what the current loader has after its
   * environment overlay on an empty file, before any normalization.
   */
  lemma GlobalsAreRawOverlay(env: Env)
    ensures var g, c := GlobalsFrom(env), Overlay(ZeroSettings, env);
      && g.sonarrURL == Get(c, SonarrUrl) && g.sonarrAPI == Get(c, SonarrApi)
      && g.radarrURL == Get(c, RadarrUrl) && g.radarrAPI == Get(c, RadarrApi)
      && g.tvRootPath == Get(c, TVRootPath) && g.movieRootPath == Get(c, MovieRootPath)
  {
  }

  /** The legacy start-up texts; the source spells them out again in this file, and so does the model. */
  const SonarrEmpty := "Sonarr values are empty. Please fill them in before proceeding"
  const RadarrEmpty := "Radarr values are empty. Please fill them in before proceeding"

  /** The two checks of `main`: the Sonarr pair first, then the Radarr pair, each with its own message. */
  function StartupCheck(g: Globals): (r: Outcome<string>)
    ensures r == Pass <==> g.sonarrAPI != "" && g.sonarrURL != "" && g.radarrAPI != "" && g.radarrURL != ""
    ensures r.Fail? && (g.sonarrAPI == "" || g.sonarrURL == "") ==> r.error == SonarrEmpty
    ensures r.Fail? && g.sonarrAPI != "" && g.sonarrURL != "" ==> r.error == RadarrEmpty
  {
    if g.sonarrAPI == "" || g.sonarrURL == "" then Fail(SonarrEmpty)
    else if g.radarrAPI == "" || g.radarrURL == "" then Fail(RadarrEmpty)
    else Pass
  }

  /** The root paths are not checked: the relay starts with both of them empty. */
  lemma RootPathsNotChecked(g: Globals)
    ensures StartupCheck(g.(tvRootPath := "", movieRootPath := "")) == StartupCheck(g)
  {
  }

  /**
   * The legacy check accepts values the current loader rejects: a
   * white-space-only URL passes here and is an empty URL after `Normalize`.
   */
  lemma BlankUrlPassesLegacyCheck()
    ensures var env := map["SONARR_URL" := " ", "SONARR_API" := "k", "RADARR_URL" := "r", "RADARR_API" := "k"];
      && StartupCheck(GlobalsFrom(env)) == Pass
      && Validate(Normalized(Overlay(ZeroSettings, env))) == Fail(MissingSonarr)
  {
    var env := map["SONARR_URL" := " ", "SONARR_API" := "k", "RADARR_URL" := "r", "RADARR_API" := "k"];
    assert Getenv(env, "SONARR_URL") == " ";
    var c := Overlay(ZeroSettings, env);
    assert c.sonarr.url == " ";
    assert TrimLeftSpace(" ") == "";
    assert NormalizeUrl(" ") == "";
  }

  /**
   * `addToRadarr`: the movie lookup at the Radarr URL with the Radarr key;
   * true exactly when it found something and the add of the first result,
   * with the movie root, got a 2xx status.
   */
  function AddToRadarr(g: Globals, title: string, net: Net): (ok: bool)
    ensures var found := net.get(LookupUrl(g.radarrURL, Movie, title, net.queryEscape), g.radarrAPI);
      ok <==> && found.Decoded? && |found.results| > 0
              && DoPost(PostUrl(g.radarrURL, Movie), g.radarrAPI, Payload(Movie, found.results[0], g.movieRootPath), net)
  {
    AddTitle(Movie, g.radarrURL, g.radarrAPI, g.movieRootPath, title, net)
  }

  /**
   * `addToSonarr`: the series lookup at the Sonarr URL with the Sonarr key;
   * true exactly when it found something and the add of the first result,
   * with the TV root, got a 2xx status.
   */
  function AddToSonarr(g: Globals, title: string, net: Net): (ok: bool)
    ensures var found := net.get(LookupUrl(g.sonarrURL, Series, title, net.queryEscape), g.sonarrAPI);
      ok <==> && found.Decoded? && |found.results| > 0
              && DoPost(PostUrl(g.sonarrURL, Series), g.sonarrAPI, Payload(Series, found.results[0], g.tvRootPath), net)
  {
    AddTitle(Series, g.sonarrURL, g.sonarrAPI, g.tvRootPath, title, net)
  }

  /** Here the Sonarr calls do not depend on the Radarr key, unlike the current wiring. */
  lemma SonarrCallsIgnoreRadarrKey(g: Globals, title: string, net: Net, key: string)
    ensures AddToSonarr(g.(radarrAPI := key), title, net) == AddToSonarr(g, title, net)
  {
  }

  /**
   * An unset `TV_ROOT_PATH` or `MOVIE_ROOT_PATH` is not defaulted: once the
   * lookup finds something, the add posts the first result with an empty
   * `rootFolderPath`.
   */
  lemma EmptyRootFolderSent(env: Env, title: string, net: Net)
    ensures var g := GlobalsFrom(env);
      var found := net.get(LookupUrl(g.sonarrURL, Series, title, net.queryEscape), g.sonarrAPI);
      Getenv(env, "TV_ROOT_PATH") == "" && found.Decoded? && found.results != [] ==>
        var p := Payload(Series, found.results[0], "");
        && p["rootFolderPath"] == JString("")
        && AddToSonarr(g, title, net) == DoPost(PostUrl(g.sonarrURL, Series), g.sonarrAPI, p, net)
    ensures var g := GlobalsFrom(env);
      var found := net.get(LookupUrl(g.radarrURL, Movie, title, net.queryEscape), g.radarrAPI);
      Getenv(env, "MOVIE_ROOT_PATH") == "" && found.Decoded? && found.results != [] ==>
        var p := Payload(Movie, found.results[0], "");
        && p["rootFolderPath"] == JString("")
        && AddToRadarr(g, title, net) == DoPost(PostUrl(g.radarrURL, Movie), g.radarrAPI, p, net)
  {
  }

  /** A base URL kept verbatim with a trailing `/` yields a doubled `/` in the add URL. */
  lemma TrailingSlashDoubles()
    ensures PostUrl("http://x/", Series) == "http://x//api/v3/series"
  {
  }

  /**
   * The legacy handler's text, written out as the source's own copy of
   * the handler body is.
   */
  function LegacyText(g: Globals, body: string, net: Net): string {
    var message := TrimSpace(body);
    if HasPrefix(ToLower(message), "request") then
      var title := TrimSpace(message[7..]);
      if Contains(ToLower(message), "movies:") then
        if AddToRadarr(g, title, net) then "Movie '" + title + "' added!"
        else "Could not find movie '" + title + "'"
      else
        if AddToSonarr(g, title, net) then "Show '" + title + "' added"
        else "Could not find show '" + title + "'"
    else
      UsageText
  }

  /** The legacy handler body agrees with the shared command model. */
  lemma LegacyTextAgrees(g: Globals, body: string, net: Net)
    ensures LegacyText(g, body, net) ==
      ResponseText(body, t => AddToRadarr(g, t, net), t => AddToSonarr(g, t, net))
  {
  }

  /** The legacy `smsHandler`. */
  function LegacyHandler(g: Globals, form: Option<Form>, net: Net): (r: Reply)
    ensures form.None? ==> r == BadRequest
    ensures form.Some? ==> && r.status == 200 && r.contentType == "application/xml"
                           && Unwrap(r.body) == Some(LegacyText(g, FormGet(form.value, "Body"), net))
  {
    match form
    case None => BadRequest
    case Some(values) =>
      var text := LegacyText(g, FormGet(values, "Body"), net);
      EnvelopeRoundTrip(text);
      Reply(200, "application/xml", Envelope(text))
  }
}
