/**
 * The current entry point, cmd/textarr/main.go: `loadConfig` (YAML file,
 * environment overlay, `Normalize`, `Validate`), the wiring of the
 * configuration into an `App`, the two start-up checks, and the `/sms`
 * handler with its two add operations. Reading and decoding the YAML file
 * is a parameter (`Loader`); the network is `Upstream.Net`.
 *
 * The wiring copies the Radarr API key into the Sonarr key, as the source
 * does; `SonarrGetsRadarrKey` and `SonarrCallsCarryRadarrKey` state the
 * consequences.
 */
module Textarr {
  import opened Wrappers
  import opened Strings
  import opened Configuration
  import opened Upstream
  import opened Sms

  /** `configuration.LoadConfig` on a non-empty path: the decoded record, or the error text. */
  type Loader = string -> Result<Settings, string>

  /** The relay's runtime state: two base URLs, two API keys, two root folders. */
  datatype App = App(
    sonarrUrl: string, sonarrApi: string,
    radarrUrl: string, radarrApi: string,
    tvRootPath: string, movieRootPath: string)

  /**
   * The starting record of `loadConfig`: Go's zero `Config` when no path is
   * given, otherwise what the loader decodes; a loader error is returned as is.
   */
  function FileSettings(path: string, load: Loader): (r: Result<Settings, ConfigError>)
    ensures path == "" ==> r == Success(ZeroSettings)
    ensures path != "" && load(path).Success? ==> r == Success(load(path).value)
    ensures path != "" && load(path).Failure? ==> r == Failure(LoadFailed(load(path).error))
  {
    if path == "" then Success(ZeroSettings)
    else match load(path)
      case Success(s) => Success(s)
      case Failure(e) => Failure(LoadFailed(e))
  }

  /** What `loadConfig` returns: the overlaid, normalized record if it validates, else the first error. */
  function Loaded(path: string, load: Loader, env: Env): (r: Result<Settings, ConfigError>)
    ensures r.Success? ==> Validate(r.value) == Pass
  {
    match FileSettings(path, load)
    case Failure(e) => Failure(e)
    case Success(s) =>
      var c := Normalized(Overlay(s, env));
      match Validate(c)
      case Pass => Success(c)
      case Fail(e) => Failure(e)
  }

  /**
   * `loadConfig`: decode the file when a path is given, overlay the
   * environment, normalize, validate. The configuration object it returns
   * holds exactly `Loaded`'s record; failures carry `Loaded`'s error.
   */
  method LoadConfig(path: string, load: Loader, env: Env) returns (r: Result<Config, ConfigError>)
    ensures r.Success? <==> Loaded(path, load, env).Success?
    ensures r.Success? ==> fresh(r.value) && r.value.Value() == Loaded(path, load, env).value
    ensures r.Failure? ==> r.error == Loaded(path, load, env).error
  {
    var initial := ZeroSettings;
    if path != "" {
      var decoded := load(path);
      if decoded.Failure? {
        return Failure(LoadFailed(decoded.error));
      }
      initial := decoded.value;
    }
    var cfg := new Config(initial);
    cfg.ApplyEnv(env);
    var err := cfg.Normalize();
    if err.Fail? {
      // `Normalize` never returns an error
      assert false;
    }
    var valid := Validate(cfg.Value());
    if valid.Fail? {
      return Failure(valid.error);
    }
    return Success(cfg);
  }

  /**
   * A loaded configuration is complete, its URLs end without `/`, and its
   * keys and root paths are trimmed.
   */
  lemma LoadedIsUsable(path: string, load: Loader, env: Env)
    requires Loaded(path, load, env).Success?
    ensures var c := Loaded(path, load, env).value;
      && Complete(c)
      && NoTrailingSlash(c.sonarr.url) && NoTrailingSlash(c.radarr.url)
      && IsTrimmed(c.sonarr.api) && IsTrimmed(c.radarr.api)
      && IsTrimmed(c.paths.tv) && IsTrimmed(c.paths.movies)
  {
  }

  /** A file that cannot be read or decoded stops loading with the loader's own error text. */
  lemma LoadFailurePassesThrough(path: string, load: Loader, env: Env)
    ensures path != "" && load(path).Failure? ==> Loaded(path, load, env) == Failure(LoadFailed(load(path).error))
  {
  }

  /**
   * Loading fails only on the file or on a missing credential: the two
   * root-path errors that `Validate` has can never be returned.
   */
  lemma LoadErrors(path: string, load: Loader, env: Env)
    ensures var r := Loaded(path, load, env);
      r.Failure? ==> r.error.LoadFailed? || r.error == MissingSonarr || r.error == MissingRadarr
  {
    var s := FileSettings(path, load);
    if s.Success? {
      ValidateAfterNormalize(Overlay(s.value, env));
    }
  }

  /** Without a path the loader is never consulted: the environment alone decides. */
  lemma EnvOnlyMode(load: Loader, load': Loader, env: Env)
    ensures Loaded("", load, env) == Loaded("", load', env)
    ensures Loaded("", load, env).Success? <==>
      forall f :: f in {SonarrUrl, SonarrApi, RadarrUrl, RadarrApi} ==>
        Get(Normalized(Overlay(ZeroSettings, env)), f) != ""
  {
    ValidateAfterNormalize(Overlay(ZeroSettings, env));
  }

  /**
   * A set, non-empty variable wins over the file: the loaded field is that
   * variable as normalized (a URL trimmed and stripped of trailing `/`, a key
   * trimmed, a path trimmed or set to its default when the variable is only
   * white space), whatever the file holds.
   */
  lemma EnvWinsOverFile(path: string, load: Loader, env: Env, f: Field)
    requires Loaded(path, load, env).Success? && Getenv(env, VarName(f)) != ""
    ensures Get(Loaded(path, load, env).value, f) == NormalizedField(f, Getenv(env, VarName(f)))
  {
    var s := FileSettings(path, load).value;
    assert Get(Overlay(s, env), f) == Getenv(env, VarName(f));
    NormalizedPerField(Overlay(s, env), f);
  }

  /**
   * A root-path variable that is set but only white space still overrides
   * the file, and then normalizes to the default: the file's path is lost.
   */
  lemma BlankPathVariableDiscardsFile(path: string, load: Loader, env: Env)
    requires Loaded(path, load, env).Success?
    requires Getenv(env, "TV_ROOT_PATH") != "" && TrimSpace(Getenv(env, "TV_ROOT_PATH")) == ""
    ensures Loaded(path, load, env).value.paths.tv == DefaultTVPath
  {
    EnvWinsOverFile(path, load, env, TVRootPath);
  }

  /**
   * The wiring of `main`: each `App` field from the matching configuration
   * field, except `sonarrApi`, which the source takes from `cfg.Radarr.API`.
   */
  function Wire(c: Settings): App {
    App(c.sonarr.url, c.radarr.api, c.radarr.url, c.radarr.api, c.paths.tv, c.paths.movies)
  }

  /**
   * The Sonarr key the relay uses is the Radarr key; the configured Sonarr
   * key plays no part in the wiring.
   */
  lemma SonarrGetsRadarrKey(c: Settings, key: string)
    ensures Wire(c).sonarrApi == c.radarr.api
    ensures Wire(c.(sonarr := c.sonarr.(api := key))) == Wire(c)
    ensures c.sonarr.api != c.radarr.api ==> Wire(c).sonarrApi != c.sonarr.api
  {
  }

  const SonarrEmpty := "Sonarr values are empty. Please fill them in before proceeding"
  const RadarrEmpty := "Radarr values are empty. Please fill them in before proceeding"

  /**
   * The two start-up checks of `main`, in order: the Radarr pair is checked
   * first but reported with the Sonarr message, and the Sonarr pair with the
   * Radarr message, as the source's texts are swapped.
   */
  function CheckApp(app: App): (r: Outcome<string>)
    ensures r == Pass <==> app.radarrApi != "" && app.radarrUrl != "" && app.sonarrApi != "" && app.sonarrUrl != ""
    ensures r.Fail? && (app.radarrApi == "" || app.radarrUrl == "") ==> r.error == SonarrEmpty
    ensures r.Fail? && app.radarrApi != "" && app.radarrUrl != "" ==> r.error == RadarrEmpty
  {
    if app.radarrApi == "" || app.radarrUrl == "" then Fail(SonarrEmpty)
    else if app.sonarrApi == "" || app.sonarrUrl == "" then Fail(RadarrEmpty)
    else Pass
  }

  /** After a successful load the start-up checks always pass: they can never stop the relay. */
  lemma ChecksPassAfterLoad(path: string, load: Loader, env: Env)
    requires Loaded(path, load, env).Success?
    ensures CheckApp(Wire(Loaded(path, load, env).value)) == Pass
  {
    LoadedIsUsable(path, load, env);
    var c := Loaded(path, load, env).value;
    assert Get(c, SonarrUrl) != "" && Get(c, RadarrUrl) != "" && Get(c, RadarrApi) != "";
  }

  /** What `main` ends in before serving: the wired app, or the text `log.Fatal` prints. */
  function Boot(path: string, load: Loader, env: Env): Result<App, string> {
    match Loaded(path, load, env)
    case Failure(e) => Failure("config error: " + e.Message())
    case Success(c) =>
      match CheckApp(Wire(c))
      case Fail(m) => Failure(m)
      case Pass => Success(Wire(c))
  }

  /**
   * `main` up to `ListenAndServe`: load the configuration, wire the app,
   * run the two checks. The result is `Boot`'s.
   */
  method Startup(path: string, load: Loader, env: Env) returns (r: Result<App, string>)
    ensures r == Boot(path, load, env)
  {
    var cfg := LoadConfig(path, load, env);
    if cfg.Failure? {
      return Failure("config error: " + cfg.error.Message());
    }
    var c := cfg.value.Value();
    var app := Wire(c);
    if app.radarrApi == "" || app.radarrUrl == "" {
      return Failure(SonarrEmpty);
    }
    if app.sonarrApi == "" || app.sonarrUrl == "" {
      return Failure(RadarrEmpty);
    }
    return Success(app);
  }

  /**
   * Start-up fails exactly when loading does, and then with the load error's
   * text; the swapped check messages are never printed.
   */
  lemma BootFailsOnlyOnConfig(path: string, load: Loader, env: Env)
    ensures Boot(path, load, env).Success? <==> Loaded(path, load, env).Success?
    ensures Boot(path, load, env).Success? ==> Boot(path, load, env).value == Wire(Loaded(path, load, env).value)
    ensures Loaded(path, load, env).Failure? ==>
      Boot(path, load, env) == Failure("config error: " + Loaded(path, load, env).error.Message())
  {
    if Loaded(path, load, env).Success? {
      ChecksPassAfterLoad(path, load, env);
    }
  }

  /**
   * `addToRadarr`: the movie lookup at the Radarr URL with the Radarr key;
   * true exactly when it found something and the add of the first result,
   * with the movie root, got a 2xx status.
   */
  function AddToRadarr(app: App, title: string, net: Net): (ok: bool)
    ensures var found := net.get(LookupUrl(app.radarrUrl, Movie, title, net.queryEscape), app.radarrApi);
      ok <==> && found.Decoded? && |found.results| > 0
              && DoPost(PostUrl(app.radarrUrl, Movie), app.radarrApi, Payload(Movie, found.results[0], app.movieRootPath), net)
  {
    AddTitle(Movie, app.radarrUrl, app.radarrApi, app.movieRootPath, title, net)
  }

  /**
   * `addToSonarr`: the series lookup at the Sonarr URL with `sonarrApi`;
   * true exactly when it found something and the add of the first result,
   * with the TV root, got a 2xx status.
   */
  function AddToSonarr(app: App, title: string, net: Net): (ok: bool)
    ensures var found := net.get(LookupUrl(app.sonarrUrl, Series, title, net.queryEscape), app.sonarrApi);
      ok <==> && found.Decoded? && |found.results| > 0
              && DoPost(PostUrl(app.sonarrUrl, Series), app.sonarrApi, Payload(Series, found.results[0], app.tvRootPath), net)
  {
    AddTitle(Series, app.sonarrUrl, app.sonarrApi, app.tvRootPath, title, net)
  }

  /**
   * With the source's wiring, every Sonarr lookup and add is sent with the
   * Radarr key, whatever Sonarr key is configured.
   */
  lemma SonarrCallsCarryRadarrKey(c: Settings, title: string, net: Net)
    ensures AddToSonarr(Wire(c), title, net) ==
      AddTitle(Series, c.sonarr.url, c.radarr.api, c.paths.tv, title, net)
  {
  }

  /**
   * The base URLs of a loaded app are non-empty and end without `/`, so
   * `SingleSlashJoin` applies: every request URL has exactly one `/` at the join.
   */
  lemma LoadedUrlsJoinCleanly(path: string, load: Loader, env: Env)
    requires Loaded(path, load, env).Success?
    ensures var app := Wire(Loaded(path, load, env).value);
      && app.radarrUrl != [] && app.radarrUrl[|app.radarrUrl| - 1] != '/'
      && app.sonarrUrl != [] && app.sonarrUrl[|app.sonarrUrl| - 1] != '/'
  {
    LoadedIsUsable(path, load, env);
    var c := Loaded(path, load, env).value;
    assert Get(c, SonarrUrl) != "" && Get(c, RadarrUrl) != "";
  }

  /** "http://x/" is normalized to "http://x", so its add URL has a single `/`. */
  lemma TrailingSlashStripped()
    ensures PostUrl(NormalizeUrl("http://x/"), Series) == "http://x/api/v3/series"
  {
    var u := "http://x/";
    assert IsTrimmed(u);
    TrimSpaceFixedPoint(u);
    assert u[..|u| - 1] == "http://x";
    assert TrimRight("http://x", "/") == "http://x";
  }

  /** The text the handler answers with, given the app and the network. */
  function SmsText(app: App, body: string, net: Net): (r: string)
    ensures Unwrap(r) == Some(ResponseText(body, t => AddToRadarr(app, t, net), t => AddToSonarr(app, t, net)))
  {
    Respond(body, t => AddToRadarr(app, t, net), t => AddToSonarr(app, t, net))
  }

  /** `App.smsHandler`: the `/sms` handler with the app's two add operations. */
  function SmsHandler(app: App, form: Option<Form>, net: Net): (r: Reply)
    ensures form.None? ==> r == BadRequest
    ensures form.Some? ==> r == Reply(200, "application/xml", SmsText(app, FormGet(form.value, "Body"), net))
  {
    Handle(form, t => AddToRadarr(app, t, net), t => AddToSonarr(app, t, net))
  }

  /** A movie request reaches Radarr only; the Sonarr side of the network is never consulted. */
  lemma MovieRequestsStayAtRadarr(app: App, body: string, net: Net, net': Net)
    requires ParseCommand(body).Add? && ParseCommand(body).target == Movie
    requires AddToRadarr(app, ParseCommand(body).title, net) == AddToRadarr(app, ParseCommand(body).title, net')
    ensures SmsText(app, body, net) == SmsText(app, body, net')
  {
    OnlyChosenManagerConsulted(body, t => AddToRadarr(app, t, net), t => AddToSonarr(app, t, net),
                               t => AddToRadarr(app, t, net'), t => AddToSonarr(app, t, net'));
  }
}
