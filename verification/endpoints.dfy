/**
 * The endpoint prober of checker/endpoints.go: normalising the configured HTTP
 * method, deciding whether one response counts as a success, and the bounded
 * retry loop that turns a run of attempts into an `Endpoint` record.
 *
 * The network, the TLS handshake, the regular-expression engine, the clock and
 * the display-URL resolver are not modelled; their answers arrive through an
 * `Environment`.
 */
module Endpoints {
  import opened Wrappers
  import opened Types
  import opened Structures
  import Decimal

  /** The fields of a configured endpoint that the prober reads. */
  datatype EndpointConfig = EndpointConfig(
    url: string,            // as configured, possibly a template; may be ""
    parsedUrl: string,      // after parameter substitution
    httpMethod: string,
    body: string,
    statusCode: int,        // expected status code; 0 means unset
    responseRegex: string)  // expected body pattern; "" means unset

  /** Configuration errors on which the program stops through `log.Fatalln`. */
  datatype Fatal = UnsupportedMethod(requested: string) | BadRegex(pattern: string)

  // ---------------------------------------------------------------- methods

  datatype HttpMethod = GET | POST | PUT
  {
    /** The constant of Go's net/http package for this method. */
    function Name(): string
    {
      match this
      case GET => "GET"
      case POST => "POST"
      case PUT => "PUT"
    }
  }

  /** What `getHttpMethod` does with a configured method name. */
  datatype MethodChoice = Supported(chosen: HttpMethod) | Unsupported

  /** Method names the prober refuses as a configuration error. */
  const RejectedMethods: set<string> := {"DELETE", "HEAD", "PATCH", "OPTIONS", "TRACE", "CONNECT"}

  /**
   * Go's `unicode.ToUpper` on every rune whose upper case is ASCII: the letters
   * a-z, the dotless i (U+0131) and the long s (U+017F). Every other rune is left
   * as it is; its Go upper case is not ASCII either, so the comparisons with the
   * ASCII method names below come out the same.
   */
  function UpperRune(c: char): (u: char)
    ensures !('a' <= u <= 'z') && u != '\U{0131}' && u != '\U{017F}'
    ensures u != c ==> 'A' <= u <= 'Z'
    ensures u != c ==> c as int == u as int + 32 || (c == '\U{0131}' && u == 'I') || (c == '\U{017F}' && u == 'S')
    ensures 'A' <= c <= 'Z' ==> u == c
  {
    if 'a' <= c <= 'z' then (c as int - 32) as char
    else if c == '\U{0131}' then 'I'
    else if c == '\U{017F}' then 'S'
    else c
  }

  /** `strings.ToUpper`, rune by rune. */
  function Upper(s: string): (u: string)
    ensures |u| == |s|
    ensures forall i :: 0 <= i < |s| ==> u[i] == UpperRune(s[i])
  {
    if s == [] then [] else [UpperRune(s[0])] + Upper(s[1..])
  }

  /** Upper-casing twice is upper-casing once. */
  lemma UpperIdempotent(s: string)
    ensures Upper(Upper(s)) == Upper(s)
  {
  }

  /**
   * `getHttpMethod`: GET, POST and PUT in any letter case are accepted, the six
   * other standard methods are a configuration error, and anything else silently
   * becomes GET.
   */
  function GetHttpMethod(requested: string): (r: MethodChoice)
    ensures r == Supported(POST) <==> Upper(requested) == "POST"
    ensures r == Supported(PUT) <==> Upper(requested) == "PUT"
    ensures r == Unsupported <==> Upper(requested) in RejectedMethods
    ensures r == Supported(GET) <==> Upper(requested) !in RejectedMethods + {"POST", "PUT"}
  {
    var u := Upper(requested);
    if u == "GET" then Supported(GET)
    else if u == "POST" then Supported(POST)
    else if u == "PUT" then Supported(PUT)
    else if u in RejectedMethods then Unsupported
    else Supported(GET)
  }

  /** The choice depends on the name only up to letter case. */
  lemma GetHttpMethodIgnoresCase(a: string, b: string)
    requires Upper(a) == Upper(b)
    ensures GetHttpMethod(a) == GetHttpMethod(b)
  {
  }

  /** Upper-casing the name before the call changes nothing. */
  lemma GetHttpMethodOfUpper(requested: string)
    ensures GetHttpMethod(Upper(requested)) == GetHttpMethod(requested)
  {
    UpperIdempotent(requested);
  }

  /** Mixed-case spellings of the accepted methods are accepted. */
  lemma GetHttpMethodAcceptsAnyCase()
    ensures GetHttpMethod("get") == Supported(GET)
    ensures GetHttpMethod("Post") == Supported(POST)
    ensures GetHttpMethod("pUt") == Supported(PUT)
  {
  }

  /** The long s (U+017F) upper-cases to 'S' in Go, so "po\u017ft" means POST. */
  lemma GetHttpMethodFoldsLongS()
    ensures GetHttpMethod("po\U{017F}t") == Supported(POST)
  {
  }

  /** The refused methods are refused in any letter case. */
  lemma GetHttpMethodRejectsAnyCase()
    ensures GetHttpMethod("delete") == Unsupported
    ensures GetHttpMethod("Options") == Unsupported
  {
    assert Upper("delete") == "DELETE";
    assert Upper("Options") == "OPTIONS";
  }

  /** An unknown or empty method name becomes GET. */
  lemma GetHttpMethodFallsBackToGet()
    ensures GetHttpMethod("FETCH") == Supported(GET)
    ensures GetHttpMethod("") == Supported(GET)
  {
  }

  // ------------------------------------------------------- success decision

  /** What the regular-expression engine says about a pattern and a body. */
  datatype MatchOutcome = Matched | NotMatched | Malformed

  const StatusOK: int := 200

  /**
   * `isSuccessfulResponse`: a set pattern that the body does not match vetoes the
   * response; a malformed pattern is fatal; with neither expectation set only
   * 200 succeeds; with only the pattern set a match succeeds; with the expected
   * status set the actual status must equal it.
   */
  function IsSuccessfulResponse(cfg: EndpointConfig, matches: (string, string) -> MatchOutcome,
                                actual: int, body: string): (r: Result<bool, Fatal>)
    ensures r.Err? <==> cfg.responseRegex != "" && matches(cfg.responseRegex, body) == Malformed
    ensures r.Err? ==> r.error == BadRegex(cfg.responseRegex)
    ensures cfg.responseRegex != "" && matches(cfg.responseRegex, body) == NotMatched ==> r == Ok(false)
    ensures cfg.statusCode == 0 && cfg.responseRegex == "" ==> r == Ok(actual == StatusOK)
    ensures cfg.statusCode == 0 && cfg.responseRegex != "" && matches(cfg.responseRegex, body) == Matched ==>
              r == Ok(true)
    ensures cfg.statusCode != 0 && (cfg.responseRegex == "" || matches(cfg.responseRegex, body) == Matched) ==>
              r == Ok(actual == cfg.statusCode)
  {
    if cfg.responseRegex != "" && matches(cfg.responseRegex, body) == Malformed then
      Err(BadRegex(cfg.responseRegex))
    else if cfg.responseRegex != "" && matches(cfg.responseRegex, body) == NotMatched then
      Ok(false)
    else if cfg.statusCode == 0 && cfg.responseRegex == "" && actual == StatusOK then
      Ok(true)
    else if cfg.statusCode == 0 && cfg.responseRegex != "" then
      Ok(true)
    else if cfg.statusCode != 0 && actual == cfg.statusCode then
      Ok(true)
    else
      Ok(false)
  }

  /**
   * The success policy stated as two independent tests: the body passes the
   * pattern (when one is set), and the status passes the status test (equal to
   * the expected code when one is set, else 200 unless a pattern was set).
   */
  predicate PolicyAccepts(cfg: EndpointConfig, outcome: MatchOutcome, actual: int)
  {
    && (cfg.responseRegex == "" || outcome == Matched)
    && (if cfg.statusCode != 0 then actual == cfg.statusCode
        else cfg.responseRegex != "" || actual == StatusOK)
  }

  /** The decision table agrees with the policy whenever it does not abort. */
  lemma SuccessFollowsPolicy(cfg: EndpointConfig, matches: (string, string) -> MatchOutcome,
                             actual: int, body: string)
    ensures var r := IsSuccessfulResponse(cfg, matches, actual, body);
            r.Ok? ==> (r.value <==> PolicyAccepts(cfg, matches(cfg.responseRegex, body), actual))
  {
  }

  // --------------------------------------------------------------- attempts

  /** What one attempt of the retry loop ran into. */
  datatype Attempt =
    | BuildError(err: string)               // http.NewRequest failed
    | TransportError(err: string)           // client.Do failed
    | ReadError(code: int, err: string)     // the body could not be read
    | Response(code: int, body: string, latency: Duration)

  /** The result of the certificate check that precedes the loop. */
  datatype TlsPrecheck =
    | PlainHttp                             // the URL is not HTTPS: no check
    | CertInfo(days: int, expired: bool)
    | CertError(err: string)

  /** The reasons recorded in `FailureDetails`. */
  datatype FailureDetail =
    | CertFailure(err: string)
    | NoStatus(err: string)
    | WithStatus(code: int, err: string)
    | Mismatch(code: int)

  /** The text `fmt.Sprintf` produces for each kind of failure detail. */
  function Render(d: FailureDetail): string
  {
    match d
    case CertFailure(err) => "SSL Certificate Error: " + err
    case NoStatus(err) => "StatusCode: N/A, Error: " + err
    case WithStatus(code, err) => "StatusCode: " + Decimal.IntToString(code) + ", Error: " + err
    case Mismatch(code) => "StatusCode or ResponseRegex mismatch: " + Decimal.IntToString(code)
  }

  /** Everything the prober asks of the world, plus the two functions it calls but which are not modelled. */
  datatype Environment = Environment(
    tls: TlsPrecheck,                              // only consulted for HTTPS URLs
    network: nat -> Attempt,                       // what attempt i runs into
    matches: (string, string) -> MatchOutcome,     // regexp.Match(pattern, body)
    testResult: (int, int) -> TestResult,          // getTestResult(successNum, attemptNum)
    highlight: string -> (string, seq<Segment>),   // HighlightChanges(url)
    startTime: string,
    endTime: string)

  /** Go's `for i := range n`: a non-positive bound runs no iteration. */
  function Budget(maxRetryTimes: int): nat
  {
    if maxRetryTimes > 0 then maxRetryTimes else 0
  }

  /** How one attempt ends, judged on its own. */
  datatype Verdict = Failed(detail: FailureDetail) | Passed | Aborted(fatal: Fatal)

  /** The verdict on one attempt, given the endpoint's expectations. */
  function Judge(cfg: EndpointConfig, matches: (string, string) -> MatchOutcome, a: Attempt): (v: Verdict)
    ensures v.Passed? || v.Aborted? ==> a.Response?
    ensures v.Aborted? <==> a.Response? && cfg.responseRegex != "" && matches(cfg.responseRegex, a.body) == Malformed
    ensures v.Passed? <==> a.Response? && !v.Aborted? && PolicyAccepts(cfg, matches(cfg.responseRegex, a.body), a.code)
    ensures v.Failed? && a.Response? ==> v.detail == Mismatch(a.code)
    ensures a.ReadError? ==> v == Failed(WithStatus(a.code, a.err))
    ensures a.BuildError? || a.TransportError? ==> v == Failed(NoStatus(a.err))
  {
    match a
    case BuildError(err) => Failed(NoStatus(err))
    case TransportError(err) => Failed(NoStatus(err))
    case ReadError(code, err) => Failed(WithStatus(code, err))
    case Response(code, body, _) =>
      match IsSuccessfulResponse(cfg, matches, code, body)
      case Err(f) => Aborted(f)
      case Ok(ok) => if ok then Passed else Failed(Mismatch(code))
  }

  /** The verdict on attempt `j` of a run. */
  function Outcome(cfg: EndpointConfig, env: Environment, j: nat): Verdict
  {
    Judge(cfg, env.matches, env.network(j))
  }

  /** The failure details the certificate check contributes. */
  function TlsDetails(tls: TlsPrecheck): (d: seq<string>)
    ensures |d| <= 1
    ensures d != [] <==> tls.CertError?
  {
    if tls.CertError? then [Render(CertFailure(tls.err))] else []
  }

  /**
   * The certificate data of the result: the HTTPS flag, which a failed check
   * clears, and the remaining days and expiry flag, which only a successful
   * check sets.
   */
  function CertFields(tls: TlsPrecheck): (f: (bool, int, bool))
    ensures f.0 <==> tls.CertInfo?
    ensures tls.CertInfo? ==> f.1 == tls.days && f.2 == tls.expired
    ensures !tls.CertInfo? ==> f.1 == 0 && !f.2
  {
    match tls
    case PlainHttp => (false, 0, false)
    case CertInfo(days, expired) => (true, days, expired)
    case CertError(_) => (false, 0, false)
  }

  /** One failure-detail line per attempt among the first `k`, all of which failed. */
  function AttemptDetails(cfg: EndpointConfig, env: Environment, k: nat): (d: seq<string>)
    requires forall j :: 0 <= j < k ==> Outcome(cfg, env, j).Failed?
    ensures |d| == k
    ensures forall j :: 0 <= j < k ==> d[j] == Render(Outcome(cfg, env, j).detail)
  {
    if k == 0 then []
    else
      var earlier := AttemptDetails(cfg, env, k - 1);
      earlier + [Render(Outcome(cfg, env, k - 1).detail)]
  }

  /** The index of the last of the first `k` attempts whose response was read in full. */
  function LastRead(network: nat -> Attempt, k: nat): (last: Option<nat>)
    ensures last.None? ==> forall j :: 0 <= j < k ==> !network(j).Response?
    ensures last.Some? ==> last.value < k && network(last.value).Response?
    ensures last.Some? ==> forall j :: last.value < j < k ==> !network(j).Response?
  {
    if k == 0 then None
    else if network(k - 1).Response? then Some(k - 1)
    else LastRead(network, k - 1)
  }

  /** `code` and `body` are those of the last response read among the first `k` attempts, or 0 and "". */
  predicate RetainsLastRead(network: nat -> Attempt, k: nat, code: int, body: string)
  {
    match LastRead(network, k)
    case None => code == 0 && body == ""
    case Some(j) => code == network(j).code && body == network(j).body
  }

  /** The display URL: the resolver's rendering of the template, or the parsed URL when there is no template. */
  function DisplayOf(cfg: EndpointConfig, highlight: string -> (string, seq<Segment>)): (string, seq<Segment>)
  {
    if cfg.url == "" then (cfg.parsedUrl, []) else highlight(cfg.url)
  }

  /** The run aborts at attempt `k`: every earlier attempt failed and attempt `k` hit a fatal error. */
  predicate AbortsAt(cfg: EndpointConfig, env: Environment, k: nat, f: Fatal)
  {
    && Outcome(cfg, env, k) == Aborted(f)
    && forall j :: 0 <= j < k ==> Outcome(cfg, env, j).Failed?
  }

  /** The loop variables of `checkEndpoint` once the attempt loop is over. */
  datatype Tally = Tally(
    attemptNum: int,
    successNum: int,
    statusCode: int,
    responseBody: string,
    maxResponseTime: Duration,
    failureDetails: seq<string>)   // the lines the attempts added

  /** Go's comparison with the zero duration: a negative latency leaves the maximum at 0. */
  function AtLeastZero(d: Duration): (m: Duration)
    ensures m >= 0 && m >= d && (m == d || m == 0)
  {
    if d > 0 then d else 0
  }

  /**
   * The loop used up its budget: every attempt failed and left one line, the
   * slowest time stays 0, and the status code and body are those of the last
   * response that was read in full.
   */
  predicate Exhausted(cfg: EndpointConfig, env: Environment, maxRetryTimes: int, t: Tally)
  {
    && t.successNum == 0 && t.attemptNum == Budget(maxRetryTimes)
    && (forall j :: 0 <= j < t.attemptNum ==> Outcome(cfg, env, j).Failed?)
    && t.failureDetails == AttemptDetails(cfg, env, t.attemptNum)
    && t.maxResponseTime == 0
    && RetainsLastRead(env.network, t.attemptNum, t.statusCode, t.responseBody)
  }

  /**
   * The loop stopped at its first passing attempt: all earlier ones failed and
   * left one line each, the slowest time is that attempt's latency (not below
   * 0), the body is cleared and the status code is that attempt's.
   */
  predicate PassedAt(cfg: EndpointConfig, env: Environment, maxRetryTimes: int, t: Tally)
  {
    && t.successNum == 1 && 1 <= t.attemptNum <= Budget(maxRetryTimes)
    && (forall j :: 0 <= j < t.attemptNum - 1 ==> Outcome(cfg, env, j).Failed?)
    && Outcome(cfg, env, t.attemptNum - 1).Passed?
    && t.failureDetails == AttemptDetails(cfg, env, t.attemptNum - 1)
    && t.maxResponseTime == AtLeastZero(env.network(t.attemptNum - 1).latency)
    && t.responseBody == "" && t.statusCode == env.network(t.attemptNum - 1).code
  }

  /** Reading attempt `i` moves the retained status code and body along. */
  lemma RetainsLastReadStep(network: nat -> Attempt, i: nat, code: int, body: string)
    requires RetainsLastRead(network, i, code, body)
    ensures network(i).Response? ==> RetainsLastRead(network, i + 1, network(i).code, network(i).body)
    ensures !network(i).Response? ==> RetainsLastRead(network, i + 1, code, body)
  {
  }

  /** One more failed attempt adds its line to the details. */
  lemma AttemptDetailsStep(cfg: EndpointConfig, env: Environment, i: nat)
    requires forall j :: 0 <= j <= i ==> Outcome(cfg, env, j).Failed?
    ensures AttemptDetails(cfg, env, i + 1) == AttemptDetails(cfg, env, i) + [Render(Outcome(cfg, env, i).detail)]
  {
  }

  /**
   * The attempt loop of `checkEndpoint`: up to `maxRetryTimes` attempts, stopping
   * at the first success, or at a malformed pattern, which ends the program.
   */
  method RunAttempts(cfg: EndpointConfig, maxRetryTimes: int, env: Environment)
    returns (r: Result<Tally, Fatal>)
    ensures r.Err? ==> exists k :: 0 <= k < Budget(maxRetryTimes) && AbortsAt(cfg, env, k, r.error)
    ensures r.Ok? ==> Exhausted(cfg, env, maxRetryTimes, r.value) || PassedAt(cfg, env, maxRetryTimes, r.value)
  {
    var statusCode, responseBody := 0, "";
    var failureDetails: seq<string> := [];
    // Go's loop body continues past every failed attempt; it leaves the loop
    // when the budget is spent or an attempt passes (or the pattern is fatal).
    var i := 0;
    while i < maxRetryTimes && Outcome(cfg, env, i).Failed?
      invariant 0 <= i <= Budget(maxRetryTimes)
      invariant forall j :: 0 <= j < i ==> Outcome(cfg, env, j).Failed?
      invariant failureDetails == AttemptDetails(cfg, env, i)
      invariant RetainsLastRead(env.network, i, statusCode, responseBody)
    {
      var attempt := env.network(i);
      RetainsLastReadStep(env.network, i, statusCode, responseBody);
      if attempt.Response? {
        responseBody := attempt.body;
        statusCode := attempt.code;
      }
      AttemptDetailsStep(cfg, env, i);
      failureDetails := failureDetails + [Render(Outcome(cfg, env, i).detail)];
      i := i + 1;
    }
    if i == Budget(maxRetryTimes) {
      // every attempt failed: attemptNum is the budget, successNum stays 0
      r := Ok(Tally(i, 0, statusCode, responseBody, 0, failureDetails));
      assert Exhausted(cfg, env, maxRetryTimes, r.value);
    } else {
      var attempt := env.network(i);
      var verdict := Outcome(cfg, env, i);
      if verdict.Aborted? {
        assert AbortsAt(cfg, env, i, verdict.fatal);
        r := Err(verdict.fatal);
      } else {
        // attempt i passed: it is counted, its latency is the maximum, the body is cleared
        assert verdict.Passed?;
        r := Ok(Tally(i + 1, 1, attempt.code, "", AtLeastZero(attempt.latency), failureDetails));
        assert PassedAt(cfg, env, maxRetryTimes, r.value);
      }
    }
  }

  /**
   * The contract of `RunAttempts` pins its result down: two tallies that both
   * describe how the loop ended over the same attempts are equal, and no tally
   * describes a run that aborts.
   */
  lemma RunIsDetermined(cfg: EndpointConfig, env: Environment, maxRetryTimes: int, t1: Tally, t2: Tally)
    requires Exhausted(cfg, env, maxRetryTimes, t1) || PassedAt(cfg, env, maxRetryTimes, t1)
    requires Exhausted(cfg, env, maxRetryTimes, t2) || PassedAt(cfg, env, maxRetryTimes, t2)
    ensures t1 == t2
  {
    // A passing attempt is the first one that did not fail, so two passing
    // tallies stop at the same attempt and an exhausted one never passes.
    if PassedAt(cfg, env, maxRetryTimes, t1) && PassedAt(cfg, env, maxRetryTimes, t2) {
      assert t1.attemptNum == t2.attemptNum;
    }
  }

  /** A run that aborts at some attempt has no tally. */
  lemma AbortExcludesTally(cfg: EndpointConfig, env: Environment, maxRetryTimes: int, k: nat, f: Fatal, t: Tally)
    requires k < Budget(maxRetryTimes) && AbortsAt(cfg, env, k, f)
    ensures !Exhausted(cfg, env, maxRetryTimes, t) && !PassedAt(cfg, env, maxRetryTimes, t)
  {
  }

  /** The loop's share of a result: its counters, code, body, slowest time and the lines after the certificate's. */
  function TallyIn(e: Endpoint, tls: TlsPrecheck): Tally
  {
    var n := |TlsDetails(tls)|;
    Tally(e.attemptNum, e.successNum, e.statusCode, e.responseBody, e.responseTime,
          if n <= |e.failureDetails| then e.failureDetails[n..] else [])
  }

  /**
   * `checkEndpoint`: refuse an unsupported method, run the certificate check for
   * HTTPS URLs, then the attempt loop, and assemble the result record.
   */
  method CheckEndpoint(cfg: EndpointConfig, maxRetryTimes: int, env: Environment)
    returns (r: Result<Endpoint, Fatal>)
    // configuration errors
    ensures GetHttpMethod(cfg.httpMethod).Unsupported? ==> r == Err(UnsupportedMethod(cfg.httpMethod))
    ensures r.Err? && GetHttpMethod(cfg.httpMethod).Supported? ==>
              exists k :: 0 <= k < Budget(maxRetryTimes) && AbortsAt(cfg, env, k, r.error)
    ensures r.Ok? ==> GetHttpMethod(cfg.httpMethod).Supported?
    // the attempt loop
    ensures r.Ok? ==> Exhausted(cfg, env, maxRetryTimes, TallyIn(r.value, env.tls)) ||
                      PassedAt(cfg, env, maxRetryTimes, TallyIn(r.value, env.tls))
    // counters, and one line per failed attempt after a failed certificate check's line
    ensures r.Ok? ==> r.value.successNum == 0 || r.value.successNum == 1
    ensures r.Ok? ==> r.value.successNum <= r.value.attemptNum <= Budget(maxRetryTimes)
    ensures r.Ok? ==> TlsDetails(env.tls) <= r.value.failureDetails
    ensures r.Ok? ==>
              |r.value.failureDetails| == |TlsDetails(env.tls)| + r.value.attemptNum - r.value.successNum
    // certificate data
    ensures r.Ok? ==> r.value.isHttps == env.tls.CertInfo?
    ensures r.Ok? ==> r.value.certRemainingDays == (if env.tls.CertInfo? then env.tls.days else 0)
    ensures r.Ok? ==> r.value.isCertExpired == (env.tls.CertInfo? && env.tls.expired)
    // fields passed through
    ensures r.Ok? ==> r.value.status == env.testResult(r.value.successNum, r.value.attemptNum)
    ensures r.Ok? ==> r.value.httpMethod == GetHttpMethod(cfg.httpMethod).chosen.Name()
    ensures r.Ok? ==> r.value.url == cfg.url && r.value.body == cfg.body
    ensures r.Ok? ==> r.value.startTime == env.startTime && r.value.endTime == env.endTime
    ensures r.Ok? ==> (r.value.displayUrl, r.value.highlightSegments) == DisplayOf(cfg, env.highlight)
  {
    var choice := GetHttpMethod(cfg.httpMethod);
    if choice.Unsupported? {
      return Err(UnsupportedMethod(cfg.httpMethod));
    }
    var cert := CertFields(env.tls);
    var display := DisplayOf(cfg, env.highlight);
    var run := RunAttempts(cfg, maxRetryTimes, env);
    if run.Err? {
      return Err(run.error);
    }
    var t := run.value;
    var details := TlsDetails(env.tls) + t.failureDetails;
    assert TlsDetails(env.tls) <= details;
    assert details[|TlsDetails(env.tls)|..] == t.failureDetails;
    r := Ok(Endpoint(
      url := cfg.url,
      httpMethod := choice.chosen.Name(),
      body := cfg.body,
      status := env.testResult(t.successNum, t.attemptNum),
      statusCode := t.statusCode,
      startTime := env.startTime,
      endTime := env.endTime,
      responseTime := t.maxResponseTime,
      attemptNum := t.attemptNum,
      successNum := t.successNum,
      failureDetails := details,
      responseBody := t.responseBody,
      isHttps := cert.0,
      certRemainingDays := cert.1,
      isCertExpired := cert.2,
      displayUrl := display.0,
      highlightSegments := display.1));
    assert TallyIn(r.value, env.tls) == t;
  }
}
