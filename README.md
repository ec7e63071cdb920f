# TextArr relay — a Dafny model

TextArr is a small SMS relay. An SMS gateway posts a form to `/sms`. The
relay reads the `Body` field. A message of the form `Request <title>` leads
the relay to look the title up at Sonarr (series) or at Radarr (movies, when
the message mentions `movies:`). It is meant to add the first match and answer with a
short text inside a `<Response><Message>…</Message></Response>` envelope.
As written, every lookup that gets a response reads the body of its own GET
request instead of the response. That body is nil, so the read panics. This
model treats the lookup outcome as an input, so it does not capture that
defect; see "Left out".

The model has seven modules, one file each:

- `wrappers.dfy` (`Wrappers`): `Option`, `Result` and `Outcome`.
- `strings.dfy` (`Strings`): the parts of Go's `strings` package the relay uses, on `seq<char>`:
  - `TrimSpace`, with the white-space set of `unicode.IsSpace`;
  - `TrimRight` with a cutset;
  - `ToLower`, folding exactly the runes Go lower-cases onto ASCII;
  - `HasPrefix`, `HasSuffix` and `Contains`.
- `configuration.dfy` (`Configuration`): package `internal/configuration`.
  - `Config` is a class whose fields `ApplyEnv` and `Normalize` update in place.
  - Each of those methods is specified by a pure function on the field values (`Settings`): `Overlay` and `Normalized`.
  - `Validate` is a pure function.
- `upstream.dfy` (`Upstream`): the lookup and add calls shared by `addToRadarr`/`addToSonarr` and `doPost`.
  - It covers the URL formats, the add payload (with its `titleSlig` and `imdbId` keys), the empty-result rule and the 2xx rule.
  - The network is a parameter (`Net`).
- `sms.dfy` (`Sms`): the handler's parse and reply logic. It covers the keyword, the `movies:` route, the title, the five answers, the XML envelope and the 400 answer to a form that does not parse.
- `textarr.dfy` (`Textarr`): `cmd/textarr/main.go`.
  - `loadConfig` is a method over a `Config` object.
  - `main` covers the wiring into `App`, the two start-up checks and the fatal exits, and is modelled as a `Result`.
  - `App.smsHandler`.
- `legacy.dfy` (`Legacy`): the older root `main.go`.
  - Its six globals are read verbatim from the environment, with no trimming and no default paths.
  - It has its own start-up check and its own copy of the handler, which is proved to give the same text as the shared model.

The model keeps three behaviours of the current entry point as written:

- **Sonarr uses the Radarr key.** `main` wires `sonarrApi` from `cfg.Radarr.API` (cmd/textarr/main.go:47). Every Sonarr call therefore carries the Radarr key. See `SonarrGetsRadarrKey` and `SonarrCallsCarryRadarrKey`.
- **The start-up checks are swapped.** The Radarr pair is checked first and reported with the "Sonarr values are empty…" text, and the Sonarr pair with the Radarr text. Neither check can fail after a successful load, because `Validate` already demands all four values (`ChecksPassAfterLoad`, `BootFailsOnlyOnConfig`).
- **The usage hint does not match the parser.** The hint says `Request movie: <title>`, but the parser looks for `movies:`. A message written as the hint suggests therefore goes to Sonarr (`UsageFormGoesToSeries`). The `movies:` token also stays in the title (`ParseMovieExample`).

## Model

| member | source | states |
|---|---|---|
| Configuration.Getenv | internal/configuration/env.go:8 | `os.Getenv`: the variable's value, or "" when it is unset (no contract; used by `Overlay` and `Legacy.GlobalsFrom`) |
| Configuration.Overlay | internal/configuration/env.go:7-28 | a field whose variable is set and non-empty takes that value verbatim; every other field keeps its value |
| Configuration.OverlayIdempotent | internal/configuration/env.go:7-28 | for a fixed environment, overlaying twice equals overlaying once |
| Configuration.VarNameInjective | internal/configuration/env.go:8-27 | the six variable names are pairwise distinct |
| Configuration.OverlayFieldLocal | internal/configuration/env.go:8-27 | changing one variable changes no field other than its own |
| Configuration.Config.constructor | internal/configuration/load.go:13-30 | the object holds the decoded (or zero) record it starts from |
| Configuration.Config.ApplyEnv | internal/configuration/env.go:7-28 | the new field values are `Overlay` of the old ones |
| Configuration.NormalizeUrl | internal/configuration/config.go:42-51 | the URL is trimmed, then every trailing `/` is removed: no `/` is left at the end, the result is a prefix of the trimmed URL, and only `/` runes were cut |
| Configuration.PathOrDefault | internal/configuration/config.go:46-47 | a trimmed path, or the default when it trims to nothing; never empty, always trimmed |
| Configuration.Normalized | internal/configuration/config.go:40-62 | after normalization both root paths are non-empty, neither URL ends in `/`, and keys and paths are trimmed |
| Configuration.NormalizedField | internal/configuration/config.go:42-59 | what normalization makes of one field's value: URLs trimmed and stripped of trailing `/`, keys trimmed, paths trimmed or defaulted (no contract; the reference for `NormalizedPerField`) |
| Configuration.NormalizedPerField | internal/configuration/config.go:42-59 | every field of `Normalized(c)` is `NormalizedField` of that field of `c` alone |
| Configuration.NormalizedPaths | internal/configuration/config.go:54-59 | a path that trims to "" becomes exactly `/media/tv` or `/media/movies`; otherwise it is its trimmed input |
| Configuration.Config.Normalize | internal/configuration/config.go:40-62 | always returns nil (`Pass`), and the new field values are `Normalized` of the old ones |
| Configuration.NormalizeIdempotentExceptUrls | internal/configuration/config.go:42-47 | normalizing twice leaves keys and paths as normalizing once does |
| Configuration.NormalizeNotIdempotentOnUrls | internal/configuration/config.go:42-51 | `"http://x /"` normalizes to `"http://x "`, which normalizes again to `"http://x"` |
| Configuration.Validate | internal/configuration/config.go:24-38 | passes iff all six fields are non-empty; on failure it names a missing group, the earliest in the order Sonarr, Radarr, TV path, movie path |
| Configuration.ConfigError.Message | internal/configuration/config.go:24-38 | the four `Validate` error texts, and the loader's own text for a load failure (no contract) |
| Configuration.ValidateAfterNormalize | internal/configuration/config.go:31-36 | after `Normalize`, `Validate` can only pass or report a missing credential pair, and it passes iff the four credential fields are non-empty |
| Textarr.FileSettings | cmd/textarr/main.go:73-81 | without a path, the zero `Config`; otherwise the loader's record, or its error as the load error |
| Textarr.Loaded | cmd/textarr/main.go:72-92 | a returned record passes `Validate` |
| Textarr.LoadFailurePassesThrough | cmd/textarr/main.go:76-80 | a file that cannot be read or decoded makes loading fail with the loader's own error |
| Textarr.LoadConfig | cmd/textarr/main.go:72-92 | succeeds iff loading, overlay, normalization and validation succeed; a fresh object holding the resulting record, or the first error |
| Textarr.LoadedIsUsable | cmd/textarr/main.go:84-91 | a loaded configuration passes validation, both URLs lack a trailing `/`, and keys and paths are trimmed |
| Textarr.LoadErrors | cmd/textarr/main.go:76-90 | loading fails only with the file error or a missing credential pair, never with a root-path error |
| Textarr.EnvOnlyMode | cmd/textarr/main.go:76-81 | with an empty path the file loader is never used, and loading succeeds iff the four normalized credentials from the environment are non-empty |
| Textarr.EnvWinsOverFile | cmd/textarr/main.go:84-85 | for each of the six fields, a set, non-empty variable overrides the file: the loaded field is that variable as normalized: URLs trimmed and stripped of trailing `/`, keys trimmed, paths trimmed or set to their default when the variable is only white space |
| Textarr.BlankPathVariableDiscardsFile | cmd/textarr/main.go:84-85 | a `TV_ROOT_PATH` that is set but only white space replaces the file's path and then normalizes to `/media/tv`, whatever the file held |
| Textarr.Wire | cmd/textarr/main.go:45-52 | the `App` literal: each field from its configuration field, except `sonarrApi`, taken from `cfg.Radarr.API` (no contract; its properties are `SonarrGetsRadarrKey`) |
| Textarr.SonarrGetsRadarrKey | cmd/textarr/main.go:45-52 | the app's Sonarr key is the configured Radarr key; the configured Sonarr key has no effect on the wiring |
| Textarr.CheckApp | cmd/textarr/main.go:56-62 | passes iff all four app values are non-empty; a missing Radarr value is reported with the Sonarr text, a missing Sonarr value with the Radarr text |
| Textarr.ChecksPassAfterLoad | cmd/textarr/main.go:40-62 | after a successful load the start-up checks always pass |
| Textarr.Boot | cmd/textarr/main.go:37-62 | the outcome of `main` before serving (no contract; its properties are `BootFailsOnlyOnConfig`) |
| Textarr.Startup | cmd/textarr/main.go:37-62 | `main` before serving: `config error: <error>` on a load failure, a check message, or the wired app |
| Textarr.BootFailsOnlyOnConfig | cmd/textarr/main.go:40-62 | start-up fails iff loading fails, and then with `config error: ` followed by the load error's text; on success it serves the wired configuration |
| Textarr.AddToRadarr | cmd/textarr/main.go:129-158 | true iff the movie lookup at the Radarr URL with the Radarr key decoded to a non-empty list, and the POST to the Radarr add URL of the first result's payload, with the movie root, got a 2xx status |
| Textarr.AddToSonarr | cmd/textarr/main.go:160-188 | true iff the series lookup at the Sonarr URL with `sonarrApi` decoded to a non-empty list, and the POST to the Sonarr add URL of the first result's payload, with the TV root, got a 2xx status |
| Textarr.SonarrCallsCarryRadarrKey | cmd/textarr/main.go:47 | every Sonarr lookup and add is sent with the Radarr key |
| Textarr.LoadedUrlsJoinCleanly | cmd/textarr/main.go:130 | the two base URLs of a loaded app are non-empty and do not end in `/` |
| Textarr.TrailingSlashStripped | cmd/textarr/main.go:186 | a configured `http://x/` yields the add URL `http://x/api/v3/series` |
| Textarr.SmsText | cmd/textarr/main.go:101-126 | the envelope holds the answer to the body, given the app's two add operations |
| Textarr.SmsHandler | cmd/textarr/main.go:94-127 | a form that does not parse gets the 400 answer; otherwise status 200, `application/xml`, and the envelope around the answer to `Body` |
| Textarr.MovieRequestsStayAtRadarr | cmd/textarr/main.go:108-113 | the answer to a movie request does not depend on the network beyond what the Radarr add returns |
| Upstream.PostUrl | cmd/textarr/main.go:156 | the add URL is the base URL followed by `/api/v3/movie` or `/api/v3/series` |
| Upstream.LookupUrl | cmd/textarr/main.go:130 | the lookup URL is the add URL followed by `/lookup?term=` and the escaped title |
| Upstream.SingleSlashJoin | cmd/textarr/main.go:161 | a non-empty base URL without a trailing `/` joins the API path with exactly one `/` |
| Upstream.MoviePayload | cmd/textarr/main.go:141-154 | the movie payload has exactly nine keys. `title`, `images` and `year` are copied; `titleSlug` goes under `titleSlig` and `tmdbId` under `imdbId`. It has the movie root, `monitored`, profile 1 and `searchForMovie` |
| Upstream.SeriesPayload | cmd/textarr/main.go:172-184 | the series payload has exactly eight keys. `title`, `titleSlug`, `images` and `seasons` are copied. It has the TV root, `monitored`, profile 1 and `searchForMissingEpisodes` |
| Upstream.Payload | cmd/textarr/main.go:142-154 | the payload of either kind has that kind's keys and the shared fields, and copies `title` and `images` |
| Upstream.DoPostBoundaries | cmd/textarr/main.go:210-222 | statuses 200 and 299 succeed; 199, 300 and a POST that never completed fail |
| Upstream.DoPost | cmd/textarr/main.go:204-223 | true iff the POST completed with a status in [200, 300) |
| Upstream.AddTitle | cmd/textarr/main.go:129-158 | true iff the lookup decoded to a non-empty list and the POST of the payload built from its first element succeeded |
| Upstream.NoResultsNoPost | cmd/textarr/main.go:131-139 | after a failed, undecodable or empty lookup the add is false, whatever the POST would answer |
| Upstream.OnlyFirstResultUsed | cmd/textarr/main.go:141 | lookups with the same first result give the same outcome |
| Sms.ParseCommand | cmd/textarr/main.go:101-108 | a message is a request iff its trimmed, lower-cased form starts with `request`; a request's title is trimmed |
| Sms.AddCommandParts | cmd/textarr/main.go:106-108 | a request's title is `TrimSpace(message[7:])` of the trimmed message, and its target is the movie manager iff the lower-cased message contains `movies:` |
| Sms.AddCommandShape | cmd/textarr/main.go:101-107 | a request's trimmed message is the keyword in some case, white space, the title, and white space |
| Sms.ParseIgnoresOuterSpace | cmd/textarr/main.go:101 | white space around the body never changes the parse |
| Sms.MarkerInRemainder | cmd/textarr/main.go:107-108 | in a message starting with the keyword, `movies:` occurs in it iff it occurs in the trimmed remainder |
| Sms.MovieIffTitleHasMarker | cmd/textarr/main.go:107-108 | a request goes to the movie manager iff its title contains `movies:` in any case |
| Sms.ParseTrimmedRequest | cmd/textarr/main.go:106-108 | a trimmed message starting with the keyword parses as an add of its trimmed remainder |
| Sms.ParseRequest | cmd/textarr/main.go:101-108 | the keyword in any case, then white space, then a non-empty trimmed title, parses as an add of that title; the target is movies iff the title contains `movies:` |
| Sms.ParseSeriesExample | cmd/textarr/main.go:106-115 | `Request Foo` is a series add of `Foo` |
| Sms.ParseMovieExample | cmd/textarr/main.go:106-109 | `Request movies: Foo` is a movie add whose title keeps the token: `movies: Foo` |
| Sms.DottedCapitalIRoutesToMovies | cmd/textarr/main.go:106-109 | `Request MOV\U{0130}ES: X` is a movie add, because the dotted capital I folds to `i` as in Go |
| Sms.UsageFormGoesToSeries | cmd/textarr/main.go:106-122 | `Request movie: Dune`, the form the usage text suggests, is a series add of `movie: Dune` |
| Sms.ReplyText | cmd/textarr/main.go:109-119 | the four add answers `Movie 'T' added!`, `Could not find movie 'T'`, `Show 'T' added` and `Could not find show 'T'` |
| Sms.ResponseText | cmd/textarr/main.go:104-123 | the answer is the usage text iff the message is not a request; a request gets the reply for its manager and the result of that manager's add |
| Sms.NonRequestGetsUsage | cmd/textarr/main.go:121-122 | a message that is not a request is answered with exactly the usage text |
| Sms.ExclamationOnlyForAddedMovie | cmd/textarr/main.go:109-119 | the answer ends in `!` iff it is a movie request whose add succeeded |
| Sms.LastRunes | cmd/textarr/main.go:109-122 | the last rune of each of the five answers |
| Sms.ReplyTextDistinguishes | cmd/textarr/main.go:109-119 | the answer to an add is never the usage text, and it determines the manager, the title and whether the add succeeded |
| Sms.OnlyChosenManagerConsulted | cmd/textarr/main.go:108-120 | the answer depends only on the add at the chosen manager |
| Sms.Envelope | cmd/textarr/main.go:126 | the body starts with `<Response><Message>`, ends with `</Message></Response>` and holds the text, unescaped, in between |
| Sms.Respond | cmd/textarr/main.go:101-126 | reading the message back out of the body gives the answer to the message |
| Sms.EnvelopeRoundTrip | cmd/textarr/main.go:126 | the envelope holds the answer verbatim: reading its message back gives the answer |
| Sms.FormGet | cmd/textarr/main.go:101 | the first value of the field, or "" when it is absent or has no values |
| Sms.Handle | cmd/textarr/main.go:94-127 | a form that does not parse gets 400 with `Bad Requests:`; otherwise status 200, `application/xml`, and an envelope whose message is the answer to `Body` |
| Legacy.GlobalsFrom | main.go:14-21 | the six globals, each read with `os.Getenv` (no contract; its property is `GlobalsAreRawOverlay`) |
| Legacy.GlobalsAreRawOverlay | main.go:14-21 | the six globals are the environment values verbatim, the same as the overlay on an empty record before normalization |
| Legacy.StartupCheck | main.go:26-32 | passes iff all four credentials are non-empty; a missing Sonarr value gives the Sonarr text, otherwise the Radarr text |
| Legacy.RootPathsNotChecked | main.go:26-34 | empty root paths do not affect the start-up check |
| Legacy.BlankUrlPassesLegacyCheck | main.go:26-32 | a blank `SONARR_URL` passes the legacy check, but the current loader rejects it with the missing-Sonarr error |
| Legacy.AddToRadarr | main.go:77-106 | true iff the movie lookup at `RADARR_URL` with `RADARR_API` decoded to a non-empty list, and the POST of the first result's payload, with `MOVIE_ROOT_PATH`, got a 2xx status |
| Legacy.AddToSonarr | main.go:108-136 | true iff the series lookup at `SONARR_URL` with `SONARR_API` decoded to a non-empty list, and the POST of the first result's payload, with `TV_ROOT_PATH`, got a 2xx status |
| Legacy.SonarrCallsIgnoreRadarrKey | main.go:108-136 | the legacy Sonarr calls do not depend on the Radarr key |
| Legacy.EmptyRootFolderSent | main.go:14-21 | with `TV_ROOT_PATH` (or `MOVIE_ROOT_PATH`) unset and a non-empty lookup, the add posts the first result with an empty `rootFolderPath` to the add URL with the variable's key |
| Legacy.TrailingSlashDoubles | main.go:134 | a base URL kept with its trailing `/` yields a doubled `/` in the add URL |
| Legacy.LegacyText | main.go:49-71 | the legacy handler's own text (no contract; its property is `LegacyTextAgrees`) |
| Legacy.LegacyTextAgrees | main.go:49-71 | the legacy handler's text equals the shared command model's for every body and every network |
| Legacy.LegacyHandler | main.go:42-75 | a form that does not parse gets the 400 answer; otherwise status 200, `application/xml`, and the envelope around the legacy text |

## Left out

- The HTTP server is not modelled: `http.HandleFunc`, `ListenAndServe` on port 6000, and writing to the `ResponseWriter`. The handler is modelled as a function from the parsed form to a `Reply`. A form that `ParseForm` rejects is the `None` input.
- `flag` parsing is not modelled. The config path is an input.
- `log` output is left out, because it has no effect on the results. `log.Fatal` and `log.Fatalf` become a `Failure` carrying the printed text.
- `os.Getenv` is modelled as a lookup in a `map<string, string>`, where an absent key reads as "".
- `configuration.LoadConfig` (internal/configuration/load.go) is not modelled: file reading and strict YAML decoding go through a foreign library. It is the `Loader` parameter, which decodes a record or fails with a text.
- `doGet`, `doPost`'s round trip and `json.Unmarshal` of the lookup reply are parameters (`Net`). They yield a transport error, an undecodable reply or a list of records, and a POST status or none. This leaves out the defect that `doGet` reads the request body instead of the response body (cmd/textarr/main.go:201, main.go:149). That body is nil, so in Go the read panics whenever the GET completes, and the handler then writes no reply. In the model, whatever a lookup yields is an input, so the two success answers are reachable here but not in the program as written.
- `url.QueryEscape` is a parameter.
- `http.NewRequest`'s error is discarded (cmd/textarr/main.go:191,206; main.go:139,154). For a URL that does not parse, such as one with a space in the host (the `"http://x "` of `NormalizeNotIdempotentOnUrls`), the request is nil and setting its header panics, so no reply is written; in the model such a call is just another `Net` outcome.
- `json.Marshal` of the payload is left out. The payload is modelled as a record of JSON values, and floating-point numbers are not represented.
- `strings.ToLower` is modelled on the runes that can lower-case onto ASCII: ASCII capitals, the dotted capital I (to `i`) and the Kelvin sign (to `k`). Every other rune is kept as it is, where Go maps it to another non-ASCII rune. The patterns `request` and `movies:` are ASCII, so both tests give Go's answers.
- Sms.ParseCommand: `message[7:]` is a byte offset in Go, and the model takes 7 runes. The two agree because a message that passes the keyword test starts with seven ASCII runes.
- Strings are sequences of Unicode scalar values, so a form value carrying bytes that are not valid UTF-8 cannot be represented.
- The XML envelope does not escape the text, as in the source: a title containing `<` ends up verbatim in the XML.
