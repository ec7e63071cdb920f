/**
 * Package `configuration`: the `Config` record, the environment overlay
 * (`ApplyEnv`), `Normalize` and `Validate`.
 *
 * `Config` is a class because `ApplyEnv` and `Normalize` update it in place
 * through a pointer receiver. Each such method is specified by a pure
 * function on the value of its fields (`Settings`): `Overlay` for `ApplyEnv`,
 * `Normalized` for `Normalize`. `Validate` only reads, so it is a function of
 * `Settings` directly.
 */
module Configuration {
  import opened Wrappers
  import opened Strings

  /** The `url`/`api` pair kept for each of the two media managers. */
  datatype Service = Service(url: string, api: string)

  /** The `paths` group: root folders for series and for movies. */
  datatype RootPaths = RootPaths(tv: string, movies: string)

  /** The value of a `Config`: what its six string fields hold at one moment. */
  datatype Settings = Settings(sonarr: Service, radarr: Service, paths: RootPaths)

  /** Go's zero `Config`: every field is the empty string. */
  const ZeroSettings := Settings(Service("", ""), Service("", ""), RootPaths("", ""))

  const DefaultTVPath := "/media/tv"
  const DefaultMoviesPath := "/media/movies"

  /** The six string fields of `Config`, named so that properties can range over them. */
  datatype Field = SonarrUrl | SonarrApi | RadarrUrl | RadarrApi | TVRootPath | MovieRootPath

  function Get(c: Settings, f: Field): string {
    match f
    case SonarrUrl => c.sonarr.url
    case SonarrApi => c.sonarr.api
    case RadarrUrl => c.radarr.url
    case RadarrApi => c.radarr.api
    case TVRootPath => c.paths.tv
    case MovieRootPath => c.paths.movies
  }

  /** The environment variable that overrides each field. */
  function VarName(f: Field): string {
    match f
    case SonarrUrl => "SONARR_URL"
    case SonarrApi => "SONARR_API"
    case RadarrUrl => "RADARR_URL"
    case RadarrApi => "RADARR_API"
    case TVRootPath => "TV_ROOT_PATH"
    case MovieRootPath => "MOVIE_ROOT_PATH"
  }

  /** The process environment. */
  type Env = map<string, string>

  /** Go's `os.Getenv`: an unset variable reads as the empty string. */
  function Getenv(env: Env, name: string): string {
    if name in env then env[name] else ""
  }

  /** A set, non-empty variable takes precedence; otherwise `current` is kept. */
  function EnvOr(env: Env, name: string, current: string): string {
    var v := Getenv(env, name);
    if v != "" then v else current
  }

  /**
   * What `ApplyEnv` makes of `c`: every field whose variable is set and
   * non-empty takes that value verbatim; every other field is unchanged.
   */
  function Overlay(c: Settings, env: Env): (r: Settings)
    ensures forall f :: Getenv(env, VarName(f)) != "" ==> Get(r, f) == Getenv(env, VarName(f))
    ensures forall f :: Getenv(env, VarName(f)) == "" ==> Get(r, f) == Get(c, f)
  {
    Settings(
      Service(EnvOr(env, "SONARR_URL", c.sonarr.url), EnvOr(env, "SONARR_API", c.sonarr.api)),
      Service(EnvOr(env, "RADARR_URL", c.radarr.url), EnvOr(env, "RADARR_API", c.radarr.api)),
      RootPaths(EnvOr(env, "TV_ROOT_PATH", c.paths.tv), EnvOr(env, "MOVIE_ROOT_PATH", c.paths.movies)))
  }

  /** Two settings are equal when they agree on every field. */
  lemma SettingsExtensional(c: Settings, d: Settings)
    requires forall f :: Get(c, f) == Get(d, f)
    ensures c == d
  {
    assert Get(c, SonarrUrl) == Get(d, SonarrUrl) && Get(c, SonarrApi) == Get(d, SonarrApi);
    assert Get(c, RadarrUrl) == Get(d, RadarrUrl) && Get(c, RadarrApi) == Get(d, RadarrApi);
    assert Get(c, TVRootPath) == Get(d, TVRootPath) && Get(c, MovieRootPath) == Get(d, MovieRootPath);
  }

  /** For a fixed environment, applying the overlay twice is the same as once. */
  lemma OverlayIdempotent(c: Settings, env: Env)
    ensures Overlay(Overlay(c, env), env) == Overlay(c, env)
  {
    SettingsExtensional(Overlay(Overlay(c, env), env), Overlay(c, env));
  }

  /** The six variable names are distinct. */
  lemma VarNameInjective(f: Field, g: Field)
    requires f != g
    ensures VarName(f) != VarName(g)
  {
    var nf, ng := VarName(f), VarName(g);
    if |nf| == |ng| {
      // equal lengths occur only among the four service variables
      assert nf[7] != ng[7] || nf[0] != ng[0];
    }
  }

  /** Each variable affects its own field only: setting it changes nothing else. */
  lemma OverlayFieldLocal(c: Settings, env: Env, g: Field, v: string, f: Field)
    requires f != g
    ensures Get(Overlay(c, env[VarName(g) := v]), f) == Get(Overlay(c, env), f)
  {
    VarNameInjective(f, g);
    assert Getenv(env[VarName(g) := v], VarName(f)) == Getenv(env, VarName(f));
  }

  /** The string has no `/` at its end. */
  predicate NoTrailingSlash(s: string) {
    s == [] || s[|s| - 1] != '/'
  }

  /**
   * One URL as `Normalize` leaves it: trimmed, then every trailing `/`
   * removed. The result is a prefix of the trimmed URL and only `/` was cut.
   */
  function NormalizeUrl(url: string): (r: string)
    ensures NoTrailingSlash(r)
    ensures var t := TrimSpace(url);
      |r| <= |t| && r == t[..|r|] && forall k :: |r| <= k < |t| ==> t[k] == '/'
  {
    TrimRight(TrimSpace(url), "/")
  }

  /** A root path after trimming, or its default when nothing is left. */
  function PathOrDefault(path: string, default: string): (r: string)
    requires default != "" && IsTrimmed(default)
    ensures r != "" && IsTrimmed(r)
  {
    var p := TrimSpace(path);
    if p == "" then default else p
  }

  /**
   * What `Normalize` makes of `c`: credentials and paths trimmed, every
   * trailing `/` removed from the two URLs, empty paths replaced by defaults.
   */
  function Normalized(c: Settings): (r: Settings)
    ensures r.paths.tv != "" && r.paths.movies != ""
    ensures NoTrailingSlash(r.sonarr.url) && NoTrailingSlash(r.radarr.url)
    ensures IsTrimmed(r.sonarr.api) && IsTrimmed(r.radarr.api)
    ensures IsTrimmed(r.paths.tv) && IsTrimmed(r.paths.movies)
  {
    Settings(
      Service(NormalizeUrl(c.sonarr.url), TrimSpace(c.sonarr.api)),
      Service(NormalizeUrl(c.radarr.url), TrimSpace(c.radarr.api)),
      RootPaths(PathOrDefault(c.paths.tv, DefaultTVPath), PathOrDefault(c.paths.movies, DefaultMoviesPath)))
  }

  /** What normalization makes of one field's value, field by field. */
  function NormalizedField(f: Field, v: string): string {
    match f
    case SonarrUrl => NormalizeUrl(v)
    case RadarrUrl => NormalizeUrl(v)
    case SonarrApi => TrimSpace(v)
    case RadarrApi => TrimSpace(v)
    case TVRootPath => PathOrDefault(v, DefaultTVPath)
    case MovieRootPath => PathOrDefault(v, DefaultMoviesPath)
  }

  /** `Normalized` treats every field on its own: each new value depends on that field's old value only. */
  lemma NormalizedPerField(c: Settings, f: Field)
    ensures Get(Normalized(c), f) == NormalizedField(f, Get(c, f))
  {
  }

  /** An empty trimmed path becomes exactly its default; a non-empty one is kept as trimmed. */
  lemma NormalizedPaths(c: Settings)
    ensures TrimSpace(c.paths.tv) == "" ==> Normalized(c).paths.tv == DefaultTVPath
    ensures TrimSpace(c.paths.tv) != "" ==> Normalized(c).paths.tv == TrimSpace(c.paths.tv)
    ensures TrimSpace(c.paths.movies) == "" ==> Normalized(c).paths.movies == DefaultMoviesPath
    ensures TrimSpace(c.paths.movies) != "" ==> Normalized(c).paths.movies == TrimSpace(c.paths.movies)
  {
  }

  /** `Normalize` is idempotent on the two API keys and the two root paths. */
  lemma NormalizeIdempotentExceptUrls(c: Settings)
    ensures var n, nn := Normalized(c), Normalized(Normalized(c));
      nn.sonarr.api == n.sonarr.api && nn.radarr.api == n.radarr.api && nn.paths == n.paths
  {
    var n := Normalized(c);
    TrimSpaceFixedPoint(n.sonarr.api);
    TrimSpaceFixedPoint(n.radarr.api);
    TrimSpaceFixedPoint(n.paths.tv);
    TrimSpaceFixedPoint(n.paths.movies);
  }

  /**
   * ... but not on URLs: "http://x /" keeps its inner space on the first
   * pass and loses it on the second.
   */
  lemma NormalizeNotIdempotentOnUrls()
    ensures var c := ZeroSettings.(sonarr := Service("http://x /", ""));
      && Normalized(c).sonarr.url == "http://x "
      && Normalized(Normalized(c)).sonarr.url == "http://x"
  {
    var s := "http://x /";
    assert TrimLeftSpace(s) == s;
    assert TrimRightSpace(s) == s;
    assert TrimSpace(s) == s;
    assert s[..|s| - 1] == "http://x ";
    assert TrimRight("http://x ", "/") == "http://x ";
    assert NormalizeUrl(s) == "http://x ";
    var t := "http://x ";
    assert TrimLeftSpace(t) == t;
    assert t[..|t| - 1] == "http://x";
    assert TrimRightSpace("http://x") == "http://x";
    assert TrimSpace(t) == "http://x";
    assert TrimRight("http://x", "/") == "http://x";
    assert NormalizeUrl(t) == "http://x";
  }

  /** The reasons `Validate` (and loading) can fail, in `Validate`'s order. */
  datatype ConfigError =
    | LoadFailed(reason: string)
    | MissingSonarr
    | MissingRadarr
    | MissingTVPath
    | MissingMoviePath
  {
    /** The Go error text. */
    function Message(): string {
      match this
      case LoadFailed(reason) => reason
      case MissingSonarr => "missing Sonarr URL or API key"
      case MissingRadarr => "missing Radarr URL or API key"
      case MissingTVPath => "TV root path is required"
      case MissingMoviePath => "Movie root path is required"
    }
  }

  /** The condition each validation error reports. */
  predicate Lacks(c: Settings, e: ConfigError) {
    match e
    case LoadFailed(_) => false
    case MissingSonarr => c.sonarr.url == "" || c.sonarr.api == ""
    case MissingRadarr => c.radarr.url == "" || c.radarr.api == ""
    case MissingTVPath => c.paths.tv == ""
    case MissingMoviePath => c.paths.movies == ""
  }

  /** The position of each check in `Validate`. */
  function Rank(e: ConfigError): nat {
    match e
    case MissingSonarr => 0
    case MissingRadarr => 1
    case MissingTVPath => 2
    case MissingMoviePath => 3
    case LoadFailed(_) => 4
  }

  /** All six fields are filled in. */
  predicate Complete(c: Settings) {
    forall f :: Get(c, f) != ""
  }

  /**
   * Go's `Validate`: passes exactly when every field is non-empty; otherwise
   * it reports a missing group, and the earliest one in the order Sonarr,
   * Radarr, TV path, movie path.
   */
  function Validate(c: Settings): (r: Outcome<ConfigError>)
    ensures r == Pass <==> Complete(c)
    ensures r.Fail? ==> Lacks(c, r.error)
    ensures r.Fail? ==> forall e :: Lacks(c, e) ==> Rank(r.error) <= Rank(e)
  {
    if c.sonarr.url == "" || c.sonarr.api == "" then
      assert Get(c, SonarrUrl) == "" || Get(c, SonarrApi) == "";
      Fail(MissingSonarr)
    else if c.radarr.url == "" || c.radarr.api == "" then
      assert Get(c, RadarrUrl) == "" || Get(c, RadarrApi) == "";
      Fail(MissingRadarr)
    else if c.paths.tv == "" then
      assert Get(c, TVRootPath) == "";
      Fail(MissingTVPath)
    else if c.paths.movies == "" then
      assert Get(c, MovieRootPath) == "";
      Fail(MissingMoviePath)
    else Pass
  }

  /** After `Normalize`, only the credential checks of `Validate` can fail. */
  lemma ValidateAfterNormalize(c: Settings)
    ensures Validate(Normalized(c)) in {Pass, Fail(MissingSonarr), Fail(MissingRadarr)}
    ensures Validate(Normalized(c)) == Pass <==>
      forall f :: f in {SonarrUrl, SonarrApi, RadarrUrl, RadarrApi} ==> Get(Normalized(c), f) != ""
  {
  }

  /** Go's `configuration.Config`, whose fields `ApplyEnv` and `Normalize` update in place. */
  class Config {
    var sonarr: Service
    var radarr: Service
    var paths: RootPaths

    /** The record as filled in by the YAML decoder (or Go's zero value). */
    constructor (initial: Settings)
      ensures Value() == initial
    {
      sonarr := initial.sonarr;
      radarr := initial.radarr;
      paths := initial.paths;
    }

    function Value(): Settings
      reads this
    {
      Settings(sonarr, radarr, paths)
    }

    /** Overlay the six environment variables on the fields. */
    method ApplyEnv(env: Env)
      modifies this
      ensures Value() == Overlay(old(Value()), env)
    {
      var v := Getenv(env, "SONARR_URL");
      if v != "" {
        sonarr := sonarr.(url := v);
      }
      v := Getenv(env, "SONARR_API");
      if v != "" {
        sonarr := sonarr.(api := v);
      }
      v := Getenv(env, "RADARR_URL");
      if v != "" {
        radarr := radarr.(url := v);
      }
      v := Getenv(env, "RADARR_API");
      if v != "" {
        radarr := radarr.(api := v);
      }
      v := Getenv(env, "TV_ROOT_PATH");
      if v != "" {
        paths := paths.(tv := v);
      }
      v := Getenv(env, "MOVIE_ROOT_PATH");
      if v != "" {
        paths := paths.(movies := v);
      }
    }

    /** Trim every field, strip trailing `/` from the URLs, default the root paths; never fails. */
    method Normalize() returns (err: Outcome<ConfigError>)
      modifies this
      ensures err == Pass
      ensures Value() == Normalized(old(Value()))
    {
      sonarr := Service(TrimSpace(sonarr.url), TrimSpace(sonarr.api));
      radarr := Service(TrimSpace(radarr.url), TrimSpace(radarr.api));
      paths := RootPaths(TrimSpace(paths.tv), TrimSpace(paths.movies));

      sonarr := sonarr.(url := TrimRight(sonarr.url, "/"));
      radarr := radarr.(url := TrimRight(radarr.url, "/"));

      if paths.tv == "" {
        paths := paths.(tv := DefaultTVPath);
      }
      if paths.movies == "" {
        paths := paths.(movies := DefaultMoviesPath);
      }
      err := Pass;
    }
  }
}
