/** The development server configuration (web-dev-server.config.js): the
    build mode read from the environment, the settings derived from it, and
    the middleware that sends every route without a file extension to the
    application's index page. */
module DevServer {

  import opened Values
  import opened Strings

  datatype Mode = Dev | Prod

  /** A configuration, or the message of the error thrown while loading it. */
  datatype Outcome<T> = Success(value: T) | Failure(message: string)

  /** The settings of the exported configuration that depend on the mode or
      that the middleware relies on. */
  datatype Config = Config(exportConditions: seq<string>, preserveSymlinks: bool, appIndex: string, nodeEnv: string)

  function ModeName(m: Mode): string {
    match m
    case Dev => "dev"
    case Prod => "prod"
  }

  /** `process.env.MODE || 'dev'`, then the check that it is one of the two
      modes, which throws otherwise. */
  function ModeOf(env: Option<string>): (r: Outcome<Mode>)
    ensures env.None? || env == Some("") || env == Some("dev") <==> r == Success(Dev)
    ensures env == Some("prod") <==> r == Success(Prod)
    ensures r.Failure? ==> r.message == "MODE must be \"dev\" or \"prod\", was \"" + env.value + "\""
  {
    var mode := if env.None? || env.value == "" then "dev" else env.value;
    if mode == "dev" then Success(Dev)
    else if mode == "prod" then Success(Prod)
    else Failure("MODE must be \"dev\" or \"prod\", was \"" + mode + "\"")
  }

  /** A mode that was accepted reads back under its own name. */
  lemma ModeNameRoundTrip(m: Mode)
    ensures ModeOf(Some(ModeName(m))) == Success(m)
  {
  }

  /** The configuration for an environment value: the `development` export
      condition only in dev mode, and the mode's name as the quoted
      replacement of `process.env.NODE_ENV`. */
  function ConfigFor(env: Option<string>): (r: Outcome<Config>)
    ensures r.Failure? <==> ModeOf(env).Failure?
    ensures r.Success? ==> (r.value.exportConditions == ["development"] <==> ModeOf(env) == Success(Dev))
    ensures r.Success? ==> r.value.exportConditions == [] || r.value.exportConditions == ["development"]
    ensures r.Success? ==> r.value.nodeEnv == "\"" + ModeName(ModeOf(env).value) + "\""
  {
    match ModeOf(env)
    case Failure(message) => Failure(message)
    case Success(mode) =>
      Success(Config(
        if mode == Dev then ["development"] else [],
        true,
        "index.html",
        "\"" + ModeName(mode) + "\""))
  }

  /** The URL `rewriteIndex` leaves in the context: `/index.html` for a URL
      with no `.` that does not start with `/__`, the URL itself otherwise. */
  function Rewritten(url: string): (r: string)
    ensures r == url || r == "/index.html"
    ensures r != url <==> '.' !in url && !StartsWith(url, "/__")
    ensures '.' in r || StartsWith(r, "/__")
  {
    if '.' !in url && !StartsWith(url, "/__") then
      assert "/index.html"[6] == '.';
      "/index.html"
    else url
  }

  /** Rewriting twice is rewriting once, and file requests and the server's
      own `/__` routes pass through. */
  lemma RewrittenIdempotent(url: string)
    ensures Rewritten(Rewritten(url)) == Rewritten(url)
    ensures '.' in url || StartsWith(url, "/__") ==> Rewritten(url) == url
  {
  }

  /** The request context the middleware sees. */
  class RequestContext {
    var url: string

    constructor (url: string)
      ensures this.url == url
    {
      this.url := url;
    }
  }

  /** `rewriteIndex`: rewrite the URL, then call `next` exactly once; the
      result is the URL `next` sees. */
  method RewriteIndex(context: RequestContext) returns (seenByNext: string)
    modifies context
    ensures context.url == Rewritten(old(context.url))
    ensures seenByNext == context.url
  {
    if '.' !in context.url && !StartsWith(context.url, "/__") {
      context.url := "/index.html";
    }
    seenByNext := context.url;
  }
}
