/**
 * `FmcsaClient`: carrier verification against the FMCSA QC Services API.
 *
 * The network is a function from attempt number to what that attempt
 * produced, and the sleeps between attempts are returned as a list of
 * durations in milliseconds, so the retry loop becomes a function of its
 * inputs that the loop is proved to compute.
 */
module FmcsaClient {
  import opened Py
  import opened Utils

  const DefaultBaseUrl := "https://mobile.fmcsa.dot.gov/qc/services"
  const DefaultMaxRetries := 0
  const DefaultBackoffMs := 750
  const DefaultTimeoutSeconds := 28
  const Mask := "****"
  const MissingWebkeyOrMc := "missing_webkey_or_mc"
  const RequestFailed := "request_failed"
  const NotFound := "not_found"
  const TimedOut := "timed out"

  // ---------------------------------------------------------------------
  // What one attempt can produce
  // ---------------------------------------------------------------------

  /** The response body once decoded: empty, not JSON, or a JSON value. */
  datatype Payload = EmptyBody | Malformed(message: string) | Parsed(data: Json)

  /**
   * One `urlopen` attempt: a `socket.timeout`, a `URLError` (including an
   * `HTTPError`) with the text of its `reason`, any other exception, or a body.
   * `message` is `str(e)`.
   */
  datatype Outcome =
    | SocketTimeout(message: string)
    | UrlError(reason: string, message: string)
    | OtherError(message: string)
    | Reply(payload: Payload)

  /** Attempt `k` of a verification produced `net(k)`. */
  type Network = nat -> Outcome

  /** The errors the loop retries: a socket timeout, or a `URLError` whose reason says "timed out". */
  predicate Retryable(o: Outcome) {
    o.SocketTimeout? || (o.UrlError? && Contains(Lower(o.reason), TimedOut))
  }

  /** The dictionary `verify` returns, one constructor per return statement shape. */
  datatype Verification =
    | Precheck(checkedAt: string)
    | Failure(endpoint: string, checkedAt: string, error: string)
    | Response(valid: bool, allowed: Json, dot: Json, name: Json,
               endpoint: string, checkedAt: string, raw: Json, problem: Option<string>)
  {
    function Valid(): bool {
      this.Response? && valid
    }

    function ToJson(): Json {
      match this
      case Precheck(now) =>
        JObj(map["valid" := JBool(false), "error" := JStr(MissingWebkeyOrMc), "checked_at" := JStr(now)])
      case Failure(endpoint, now, error) =>
        JObj(map["valid" := JBool(false), "endpoint" := JStr(endpoint), "checked_at" := JStr(now),
                 "error" := JStr(error)])
      case Response(valid, allowed, dot, name, endpoint, now, raw, error) =>
        JObj(map["valid" := JBool(valid), "allowed_to_operate" := allowed, "dot_number" := dot,
                 "carrier_name" := name, "endpoint" := JStr(endpoint), "checked_at" := JStr(now),
                 "raw" := raw, "error" := if error.Some? then JStr(error.value) else JNull])
    }
  }

  // ---------------------------------------------------------------------
  // Extraction from a response body
  // ---------------------------------------------------------------------

  /** `carrier or content`, where `carrier` is `content["carrier"]` only when that is a dict. */
  function Source(content: map<string, Json>): map<string, Json> {
    var carrier := Get(content, "carrier");
    if carrier.JObj? && carrier.fields != map[] then carrier.fields else content
  }

  /**
   * `str(allowed).upper() == "Y"`. The `str()` of a list or dict starts
   * with a bracket, so it is never "Y".
   */
  predicate IsAllowed(allowed: Json) {
    IsScalar(allowed) && Upper(Str(allowed)) == "Y"
  }

  /** The message of the `AttributeError` that calling `.get` on a non-dict raises. */
  function NoGetAttribute(v: Json): string {
    "'" + TypeName(v) + "' object has no attribute 'get'"
  }

  /** The body of the `try` after `urlopen` returned: decode, extract, build the result. */
  function Extract(data: Json, endpoint: string, now: string): Verification {
    var content := if data.JObj? then Get(data.fields, "content") else JNull;
    var source := if content.JObj? then Source(content.fields) else map[];
    var allowed := if content.JObj? then Get(source, "allowedToOperate") else JNull;
    var dot := if content.JObj? then Or(Get(source, "dotNumber"), Get(source, "usdotNumber")) else JNull;
    var legal := if content.JObj? then Get(source, "legalName") else JNull;
    if Truthy(content) then Response(IsAllowed(allowed), allowed, dot, legal, endpoint, now, data, None)
    else if data.JObj? then Response(IsAllowed(allowed), allowed, dot, legal, endpoint, now, data, Some(NotFound))
    else Failure(endpoint, now, NoGetAttribute(data))
  }

  /** `json.loads(payload or "{}")`, then the extraction; a decode error falls into the generic `except`. */
  function Respond(p: Payload, endpoint: string, now: string): Verification {
    match p
    case EmptyBody => Extract(JObj(map[]), endpoint, now)
    case Malformed(message) => Failure(endpoint, now, message)
    case Parsed(data) => Extract(data, endpoint, now)
  }

  // ---------------------------------------------------------------------
  // URL and redaction
  // ---------------------------------------------------------------------

  /** The characters `urllib.parse.quote` keeps: letters, digits, `_.-~` and the default safe `/`. */
  predicate Unreserved(c: char) {
    || 'A' <= c <= 'Z' || 'a' <= c <= 'z' || '0' <= c <= '9'
    || c == '_' || c == '.' || c == '-' || c == '~' || c == '/'
  }

  /** The UTF-8 encoding of one character. */
  function Utf8(c: char): (r: seq<int>)
    ensures 1 <= |r| <= 4
    ensures forall i :: 0 <= i < |r| ==> 0 <= r[i] < 256
  {
    var n := c as int;
    if n < 0x80 then [n]
    else if n < 0x800 then [0xC0 + n / 0x40, 0x80 + n % 0x40]
    else if n < 0x1_0000 then [0xE0 + n / 0x1000, 0x80 + (n / 0x40) % 0x40, 0x80 + n % 0x40]
    else [0xF0 + n / 0x4_0000, 0x80 + (n / 0x1000) % 0x40, 0x80 + (n / 0x40) % 0x40, 0x80 + n % 0x40]
  }

  function HexDigit(d: int): char
    requires 0 <= d < 16
  {
    if d < 10 then ('0' as int + d) as char else ('A' as int + d - 10) as char
  }

  /** `%XX` for every byte, upper-case hexadecimal. */
  function Percent(bytes: seq<int>): (r: string)
    requires forall i :: 0 <= i < |bytes| ==> 0 <= bytes[i] < 256
    ensures |r| == 3 * |bytes|
  {
    if bytes == [] then []
    else ['%', HexDigit(bytes[0] / 16), HexDigit(bytes[0] % 16)] + Percent(bytes[1..])
  }

  /** `urllib.parse.quote(s)`. */
  function Quote(s: string): string {
    if s == [] then []
    else (if Unreserved(s[0]) then [s[0]] else Percent(Utf8(s[0]))) + Quote(s[1..])
  }

  /** Text made of unreserved characters (the sanitised MC number, for one) is not changed by quoting. */
  lemma {:induction false} QuoteKeepsUnreserved(s: string)
    requires forall i :: 0 <= i < |s| ==> Unreserved(s[i])
    ensures Quote(s) == s
  {
    if s != [] {
      QuoteKeepsUnreserved(s[1..]);
      assert s == [s[0]] + s[1..];
    }
  }

  /** Quoting never produces a character outside the unreserved set and `%`. */
  lemma {:induction false} QuoteAlphabet(s: string)
    ensures forall i :: 0 <= i < |Quote(s)| ==> Unreserved(Quote(s)[i]) || Quote(s)[i] == '%'
  {
    if s != [] {
      QuoteAlphabet(s[1..]);
      if !Unreserved(s[0]) {
        PercentAlphabet(Utf8(s[0]));
      }
    }
  }

  lemma {:induction false} PercentAlphabet(bytes: seq<int>)
    requires forall i :: 0 <= i < |bytes| ==> 0 <= bytes[i] < 256
    ensures forall i :: 0 <= i < |Percent(bytes)| ==> Unreserved(Percent(bytes)[i]) || Percent(bytes)[i] == '%'
  {
    if bytes != [] {
      PercentAlphabet(bytes[1..]);
    }
  }

  /** `f"{base}/carriers/{quote(mc_clean)}?webKey={quote(webkey)}"` */
  function Url(base: string, mc: string, webkey: string): string {
    base + "/carriers/" + Quote(mc) + "?webKey=" + Quote(webkey)
  }

  /** `url.replace(webkey, "****")` */
  function Redact(url: string, webkey: string): string
    requires webkey != ""
  {
    ReplaceAll(url, webkey, Mask)
  }

  /** Up to its first `*`, the output of a masking replace is a copy of its input. */
  lemma {:induction false} MaskedPrefixIsCopied(s: string, pat: string, i: nat)
    requires pat != [] && i <= |ReplaceAll(s, pat, Mask)|
    requires forall j :: 0 <= j < i ==> ReplaceAll(s, pat, Mask)[j] != '*'
    ensures i <= |s| && ReplaceAll(s, pat, Mask)[..i] == s[..i]
    decreases |s|
  {
    var r := ReplaceAll(s, pat, Mask);
    if i > 0 {
      assert r[0] != '*';
    }
    if |s| < |pat| {
    } else if s[..|pat|] == pat {
      assert r[0] == '*';
    } else if i > 0 {
      var rest := ReplaceAll(s[1..], pat, Mask);
      assert r == [s[0]] + rest;
      forall j | 0 <= j < i - 1 ensures rest[j] != '*' {
        assert rest[j] == r[j + 1];
      }
      MaskedPrefixIsCopied(s[1..], pat, i - 1);
      assert r[..i] == [s[0]] + rest[..i - 1];
      assert s[..i] == [s[0]] + s[1..][..i - 1];
    }
  }

  /**
   * After `replace(webkey, "****")` no occurrence of the key is left, as
   * long as the key itself has no `*` (else the mask could spell it).
   */
  lemma {:induction false} RedactRemovesKey(s: string, pat: string)
    requires pat != [] && '*' !in pat
    ensures forall i :: !OccursAt(ReplaceAll(s, pat, Mask), pat, i)
    decreases |s|
  {
    var r := ReplaceAll(s, pat, Mask);
    if |s| < |pat| {
      assert r == s;
    } else if s[..|pat|] == pat {
      var rest := ReplaceAll(s[|pat|..], pat, Mask);
      assert r == Mask + rest;
      RedactRemovesKey(s[|pat|..], pat);
      forall i ensures !OccursAt(r, pat, i) {
        if 0 <= i && i + |pat| <= |r| {
          if i < 4 {
            assert r[i..i + |pat|][0] == '*';
            assert pat[0] in pat;
          } else {
            assert r[i..i + |pat|] == rest[i - 4..i - 4 + |pat|];
            assert !OccursAt(rest, pat, i - 4);
          }
        }
      }
    } else {
      var rest := ReplaceAll(s[1..], pat, Mask);
      assert r == [s[0]] + rest;
      RedactRemovesKey(s[1..], pat);
      forall i ensures !OccursAt(r, pat, i) {
        if i == 0 {
          NoOccurrenceAtStart(s, pat, rest);
        } else if 0 < i && i + |pat| <= |r| {
          assert r[i..i + |pat|] == rest[i - 1..i - 1 + |pat|];
          assert !OccursAt(rest, pat, i - 1);
        }
      }
    }
  }

  /** Where the scan did not match, `[s[0]] + rest` does not start with the key either. */
  lemma NoOccurrenceAtStart(s: string, pat: string, rest: string)
    requires pat != [] && '*' !in pat && |s| >= |pat| && s[..|pat|] != pat
    requires rest == ReplaceAll(s[1..], pat, Mask)
    ensures !OccursAt([s[0]] + rest, pat, 0)
  {
    var r := [s[0]] + rest;
    var k := |pat| - 1;
    if |pat| <= |r| {
      var head := r[0..|pat|];
      if j :| 0 <= j < k && rest[j] == '*' {
        assert head[j + 1] == '*';
        assert pat[j + 1] in pat;
      } else {
        MaskedPrefixIsCopied(s[1..], pat, k);
        forall m | 0 <= m < |pat| ensures head[m] == s[m] {
          if m > 0 {
            assert head[m] == rest[m - 1] == rest[..k][m - 1];
          }
        }
        assert head == s[..|pat|];
      }
    }
  }

  /** A replace with nothing to replace leaves the text alone. */
  lemma {:induction false} ReplaceAbsent(s: string, pat: string, sub: string)
    requires pat != [] && forall i :: !OccursAt(s, pat, i)
    ensures ReplaceAll(s, pat, sub) == s
    decreases |s|
  {
    if |s| >= |pat| {
      assert !OccursAt(s, pat, 0);
      forall i ensures !OccursAt(s[1..], pat, i) {
        if OccursAt(s[1..], pat, i) {
          assert s[1..][i..i + |pat|] == s[i + 1..i + 1 + |pat|];
          assert OccursAt(s, pat, i + 1);
        }
      }
      ReplaceAbsent(s[1..], pat, sub);
    }
  }

  /** Redacting an already redacted endpoint changes nothing, for a key without `*`. */
  lemma RedactIdempotent(url: string, webkey: string)
    requires webkey != "" && '*' !in webkey
    ensures Redact(Redact(url, webkey), webkey) == Redact(url, webkey)
  {
    RedactRemovesKey(url, webkey);
    ReplaceAbsent(Redact(url, webkey), webkey, Mask);
  }

  // ---------------------------------------------------------------------
  // Configuration
  // ---------------------------------------------------------------------

  /** Settings as given to the constructor, or as found in the environment. */
  datatype Settings = Settings(
    webkey: Option<string>,
    baseUrl: Option<string>,
    maxRetries: Option<int>,
    backoffMs: Option<nat>,
    timeoutSeconds: Option<int>)

  const NoSettings := Settings(None, None, None, None, None)

  /** The client's effective settings. */
  datatype Config = Config(webkey: string, baseUrl: string, maxRetries: int, backoffMs: nat, timeoutSeconds: int)

  /** Python's `a or b` on optional text. */
  function OrText(a: Option<string>, b: string): string {
    if a.Some? && a.value != "" then a.value else b
  }

  /**
   * `FmcsaClient.__init__`: the key and base URL prefer the arguments over
   * the environment; the three numbers prefer the environment over the
   * arguments (`int(os.getenv(NAME, str(arg)))`).
   */
  function ClientConfig(args: Settings, env: Settings): Config {
    Config(
      Strip(OrText(args.webkey, env.webkey.GetOr(""))),
      RStripChar(OrText(args.baseUrl, env.baseUrl.GetOr(DefaultBaseUrl)), '/'),
      if env.maxRetries.Some? then env.maxRetries.value else args.maxRetries.GetOr(DefaultMaxRetries),
      if env.backoffMs.Some? then env.backoffMs.value else args.backoffMs.GetOr(DefaultBackoffMs),
      if env.timeoutSeconds.Some? then env.timeoutSeconds.value else args.timeoutSeconds.GetOr(DefaultTimeoutSeconds))
  }

  /** The handler's `_fmcsa_verify` reads the same environment but always uses a 28 second timeout. */
  function HandlerConfig(env: Settings): Config {
    Config(
      Strip(env.webkey.GetOr("")),
      RStripChar(env.baseUrl.GetOr(DefaultBaseUrl), '/'),
      env.maxRetries.GetOr(DefaultMaxRetries),
      env.backoffMs.GetOr(DefaultBackoffMs),
      DefaultTimeoutSeconds)
  }

  /** Precedence: an explicit key or base URL wins over the environment; an environment number wins over an argument. */
  lemma ConfigPrecedence(args: Settings, env: Settings)
    ensures args.webkey.Some? && args.webkey.value != "" ==> ClientConfig(args, env).webkey == Strip(args.webkey.value)
    ensures args.baseUrl.Some? && args.baseUrl.value != "" ==> ClientConfig(args, env).baseUrl == RStripChar(args.baseUrl.value, '/')
    ensures env.maxRetries.Some? ==> ClientConfig(args, env).maxRetries == env.maxRetries.value
    ensures env.backoffMs.Some? ==> ClientConfig(args, env).backoffMs == env.backoffMs.value
    ensures env.timeoutSeconds.Some? ==> ClientConfig(args, env).timeoutSeconds == env.timeoutSeconds.value
  {
  }

  /** The handler's copy behaves as a client built without arguments, with `FMCSA_TIMEOUT_SECONDS` ignored. */
  lemma HandlerIsDefaultClient(env: Settings)
    ensures HandlerConfig(env) == ClientConfig(NoSettings, env.(timeoutSeconds := None))
  {
  }

  // ---------------------------------------------------------------------
  // The retry loop
  // ---------------------------------------------------------------------

  function Pow2(k: nat): nat {
    if k == 0 then 1 else 2 * Pow2(k - 1)
  }

  /** `backoff * (2 ** attempt)`, in milliseconds. */
  function Backoff(cfg: Config, attempt: nat): nat {
    cfg.backoffMs * Pow2(attempt)
  }

  /** What a verification did: its result, how many requests it sent, and the sleeps in between. */
  datatype Trace = Trace(result: Verification, attempts: nat, sleeps: seq<nat>)

  /** The message a retried error leaves in `last_err`. */
  function ErrorText(o: Outcome): string {
    match o
    case SocketTimeout(message) => message
    case UrlError(_, message) => message
    case OtherError(message) => message
    case Reply(_) => ""
  }

  /** What an attempt that is not retried returns: the extracted body, or `str(e)` of the error. */
  function Settle(o: Outcome, endpoint: string, now: string): Verification {
    match o
    case Reply(p) => Respond(p, endpoint, now)
    case _ => Failure(endpoint, now, ErrorText(o))
  }

  /** The loop from attempt `k` on, with `lastErr` the last retried error so far. */
  function Attempts(cfg: Config, endpoint: string, now: string, net: Network, k: nat, lastErr: Option<string>): Trace
    decreases if k <= cfg.maxRetries + 1 then cfg.maxRetries + 1 - k else 0
  {
    if k >= cfg.maxRetries + 1 then
      Trace(Failure(endpoint, now, if lastErr.Some? then lastErr.value else RequestFailed), k, [])
    else
      var o := net(k);
      if Retryable(o) then
        var next := Attempts(cfg, endpoint, now, net, k + 1, Some(ErrorText(o)));
        Trace(next.result, next.attempts, (if k < cfg.maxRetries then [Backoff(cfg, k)] else []) + next.sleeps)
      else
        Trace(Settle(o, endpoint, now), k + 1, [])
  }

  /** An attempt that is not retried ends the loop with its own result. */
  lemma AttemptsSettle(cfg: Config, endpoint: string, now: string, net: Network, k: nat, lastErr: Option<string>)
    requires k < cfg.maxRetries + 1 && !Retryable(net(k))
    ensures Attempts(cfg, endpoint, now, net, k, lastErr) == Trace(Settle(net(k), endpoint, now), k + 1, [])
  {
  }

  /** A retried attempt records its error and, unless it was the last, one sleep before the rest. */
  lemma AttemptsRetry(cfg: Config, endpoint: string, now: string, net: Network, k: nat, lastErr: Option<string>,
                      sleeps: seq<nat>)
    requires k < cfg.maxRetries + 1 && Retryable(net(k))
    ensures var t := Attempts(cfg, endpoint, now, net, k, lastErr);
      var u := Attempts(cfg, endpoint, now, net, k + 1, Some(ErrorText(net(k))));
      var slept := sleeps + (if k < cfg.maxRetries then [Backoff(cfg, k)] else []);
      Trace(t.result, t.attempts, sleeps + t.sleeps) == Trace(u.result, u.attempts, slept + u.sleeps)
  {
    var u := Attempts(cfg, endpoint, now, net, k + 1, Some(ErrorText(net(k))));
    var pause: seq<nat> := if k < cfg.maxRetries then [Backoff(cfg, k)] else [];
    assert sleeps + (pause + u.sleeps) == (sleeps + pause) + u.sleeps;
  }

  /** The `endpoint` every result after the precheck reports: the URL with the key masked. */
  function Endpoint(cfg: Config, mcClean: string): string
    requires cfg.webkey != ""
  {
    Redact(Url(cfg.baseUrl, mcClean, cfg.webkey), cfg.webkey)
  }

  /** `verify(mc)` as a function of the settings, the clock reading and the network. */
  function Run(cfg: Config, mc: Json, now: string, net: Network): Trace
    requires IsScalar(mc)
  {
    var mcClean := SanitizeMc(mc);
    if cfg.webkey == "" || mcClean == "" then Trace(Precheck(now), 0, [])
    else Attempts(cfg, Endpoint(cfg, mcClean), now, net, 0, None)
  }

  /**
   * The loop of `verify` / `_fmcsa_verify`: at most `max_retries + 1`
   * requests, a return on the first body or non-timeout error, and a sleep
   * between consecutive timeouts.
   */
  method VerifyWith(cfg: Config, mc: Json, now: string, net: Network)
    returns (r: Verification, attempts: nat, sleeps: seq<nat>)
    requires IsScalar(mc)
    ensures Trace(r, attempts, sleeps) == Run(cfg, mc, now, net)
  {
    var mcClean := SanitizeMc(mc);
    if cfg.webkey == "" || mcClean == "" {
      return Precheck(now), 0, [];
    }
    var url := Url(cfg.baseUrl, mcClean, cfg.webkey);
    var endpoint := Redact(url, cfg.webkey);
    assert endpoint == Endpoint(cfg, mcClean);

    var lastErr: Option<string> := None;
    sleeps := [];
    var attempt: nat := 0;
    while attempt < cfg.maxRetries + 1
      invariant attempt > 0 ==> attempt <= cfg.maxRetries + 1
      invariant Attempts(cfg, endpoint, now, net, 0, None)
                == var t := Attempts(cfg, endpoint, now, net, attempt, lastErr);
                   Trace(t.result, t.attempts, sleeps + t.sleeps)
      decreases cfg.maxRetries + 1 - attempt
    {
      var o := net(attempt);
      if !Retryable(o) {
        AttemptsSettle(cfg, endpoint, now, net, attempt, lastErr);
      } else {
        AttemptsRetry(cfg, endpoint, now, net, attempt, lastErr, sleeps);
      }
      match o {
        case Reply(payload) =>
          return Respond(payload, endpoint, now), attempt + 1, sleeps;
        case SocketTimeout(message) =>
          lastErr := Some(message);
        case UrlError(reason, message) =>
          if Contains(Lower(reason), TimedOut) {
            lastErr := Some(message);
          } else {
            return Failure(endpoint, now, message), attempt + 1, sleeps;
          }
        case OtherError(message) =>
          return Failure(endpoint, now, message), attempt + 1, sleeps;
      }
      assert Retryable(o) && lastErr == Some(ErrorText(o));
      if attempt < cfg.maxRetries {
        sleeps := sleeps + [Backoff(cfg, attempt)];
      }
      attempt := attempt + 1;
    }
    r := Failure(endpoint, now, if lastErr.Some? then lastErr.value else RequestFailed);
    attempts := attempt;
  }

  class FmcsaClient {
    const webkey: string
    const baseUrl: string
    const maxRetries: int
    const backoffMs: nat
    const timeoutSeconds: int

    /** `FmcsaClient(webkey, base_url, max_retries, backoff_seconds, timeout_seconds)` with the environment passed in. */
    constructor(args: Settings, env: Settings)
      ensures Settings() == ClientConfig(args, env)
    {
      webkey := Strip(OrText(args.webkey, env.webkey.GetOr("")));
      baseUrl := RStripChar(OrText(args.baseUrl, env.baseUrl.GetOr(DefaultBaseUrl)), '/');
      maxRetries := if env.maxRetries.Some? then env.maxRetries.value else args.maxRetries.GetOr(DefaultMaxRetries);
      backoffMs := if env.backoffMs.Some? then env.backoffMs.value else args.backoffMs.GetOr(DefaultBackoffMs);
      timeoutSeconds := if env.timeoutSeconds.Some? then env.timeoutSeconds.value else args.timeoutSeconds.GetOr(DefaultTimeoutSeconds);
    }

    function Settings(): Config {
      Config(webkey, baseUrl, maxRetries, backoffMs, timeoutSeconds)
    }

    /** `verify(mc)`, with the clock reading and the network passed in. */
    method Verify(mc: Json, now: string, net: Network) returns (r: Verification, attempts: nat, sleeps: seq<nat>)
      requires IsScalar(mc)
      ensures Trace(r, attempts, sleeps) == Run(Settings(), mc, now, net)
    {
      r, attempts, sleeps := VerifyWith(Settings(), mc, now, net);
    }
  }
}

/** What `verify` promises about its attempts, sleeps and results. */
module FmcsaClientProperties {
  import opened Py
  import opened Utils
  import opened FmcsaClient

  // ---------------------------------------------------------------------
  // The loop from attempt k on
  // ---------------------------------------------------------------------

  /**
   * The loop sends a request per attempt up to the last one, and sleeps
   * between two attempts only: one sleep fewer than requests, the j-th of
   * them `backoff * 2^j`.
   */
  lemma {:induction false} AttemptsCount(cfg: Config, endpoint: string, now: string, net: Network, k: nat, lastErr: Option<string>)
    ensures var t := Attempts(cfg, endpoint, now, net, k, lastErr);
      && (k < cfg.maxRetries + 1 ==> k < t.attempts <= cfg.maxRetries + 1)
      && (k >= cfg.maxRetries + 1 ==> t.attempts == k)
      && |t.sleeps| == (if t.attempts > k then t.attempts - k - 1 else 0)
      && (forall j :: 0 <= j < |t.sleeps| ==> t.sleeps[j] == Backoff(cfg, k + j))
    decreases if k <= cfg.maxRetries + 1 then cfg.maxRetries + 1 - k else 0
  {
    if k < cfg.maxRetries + 1 && Retryable(net(k)) {
      var next := Attempts(cfg, endpoint, now, net, k + 1, Some(ErrorText(net(k))));
      AttemptsCount(cfg, endpoint, now, net, k + 1, Some(ErrorText(net(k))));
      var t := Attempts(cfg, endpoint, now, net, k, lastErr);
      if k < cfg.maxRetries {
        assert t.sleeps == [Backoff(cfg, k)] + next.sleeps;
        forall j | 0 < j < |t.sleeps| ensures t.sleeps[j] == Backoff(cfg, k + j) {
          assert t.sleeps[j] == next.sleeps[j - 1];
        }
      } else {
        assert t.sleeps == next.sleeps;
      }
    }
  }

  /**
   * Only retryable errors lead to another attempt: every attempt before the
   * last was one, and the last decides the result. A last attempt that was
   * retryable too means the attempts ran out, and its error is reported.
   */
  lemma {:induction false} AttemptsStop(cfg: Config, endpoint: string, now: string, net: Network, k: nat, lastErr: Option<string>)
    requires k < cfg.maxRetries + 1
    ensures var t := Attempts(cfg, endpoint, now, net, k, lastErr);
      && k < t.attempts
      && (forall j :: k <= j < t.attempts - 1 ==> Retryable(net(j)))
      && (!Retryable(net(t.attempts - 1)) ==> t.result == Settle(net(t.attempts - 1), endpoint, now))
      && (Retryable(net(t.attempts - 1)) ==>
            t.attempts == cfg.maxRetries + 1 && t.result == Failure(endpoint, now, ErrorText(net(t.attempts - 1))))
    decreases cfg.maxRetries + 1 - k
  {
    if Retryable(net(k)) && k + 1 < cfg.maxRetries + 1 {
      AttemptsStop(cfg, endpoint, now, net, k + 1, Some(ErrorText(net(k))));
    }
  }

  /** Every result of the loop is a failure or a response that reports the masked endpoint and the one clock reading. */
  lemma {:induction false} AttemptsStamps(cfg: Config, endpoint: string, now: string, net: Network, k: nat, lastErr: Option<string>)
    ensures var t := Attempts(cfg, endpoint, now, net, k, lastErr);
      && !t.result.Precheck?
      && t.result.endpoint == endpoint
      && t.result.checkedAt == now
    decreases if k <= cfg.maxRetries + 1 then cfg.maxRetries + 1 - k else 0
  {
    if k < cfg.maxRetries + 1 && Retryable(net(k)) {
      AttemptsStamps(cfg, endpoint, now, net, k + 1, Some(ErrorText(net(k))));
    }
  }

  // ---------------------------------------------------------------------
  // verify(mc)
  // ---------------------------------------------------------------------

  /** The precheck answers exactly when the key or the sanitised MC number is empty, and then sends nothing. */
  lemma PrecheckIff(cfg: Config, mc: Json, now: string, net: Network)
    requires IsScalar(mc)
    ensures Run(cfg, mc, now, net).result.Precheck? <==> cfg.webkey == "" || SanitizeMc(mc) == ""
    ensures Run(cfg, mc, now, net).result.Precheck? ==> Run(cfg, mc, now, net) == Trace(Precheck(now), 0, [])
  {
    if cfg.webkey != "" && SanitizeMc(mc) != "" {
      AttemptsStamps(cfg, Endpoint(cfg, SanitizeMc(mc)), now, net, 0, None);
    }
  }

  /** `checked_at` is the same clock reading on every return; every result after the precheck reports the masked endpoint. */
  lemma RunStamps(cfg: Config, mc: Json, now: string, net: Network)
    requires IsScalar(mc)
    ensures Run(cfg, mc, now, net).result.checkedAt == now
    ensures !Run(cfg, mc, now, net).result.Precheck? ==>
              cfg.webkey != "" && Run(cfg, mc, now, net).result.endpoint == Endpoint(cfg, SanitizeMc(mc))
  {
    if cfg.webkey != "" && SanitizeMc(mc) != "" {
      AttemptsStamps(cfg, Endpoint(cfg, SanitizeMc(mc)), now, net, 0, None);
    }
  }

  /** A key without `*` does not occur anywhere in the reported endpoint. */
  lemma EndpointHidesKey(cfg: Config, mc: Json, now: string, net: Network)
    requires IsScalar(mc) && '*' !in cfg.webkey
    ensures !Run(cfg, mc, now, net).result.Precheck? ==>
              forall i :: !OccursAt(Run(cfg, mc, now, net).result.endpoint, cfg.webkey, i)
  {
    RunStamps(cfg, mc, now, net);
    if cfg.webkey != "" {
      RedactRemovesKey(Url(cfg.baseUrl, SanitizeMc(mc), cfg.webkey), cfg.webkey);
    }
  }

  /** At most `max_retries + 1` requests, one sleep fewer than requests, the j-th sleep `backoff * 2^j`. */
  lemma RunAttempts(cfg: Config, mc: Json, now: string, net: Network)
    requires IsScalar(mc)
    ensures var t := Run(cfg, mc, now, net);
      && t.attempts <= (if cfg.maxRetries + 1 > 0 then cfg.maxRetries + 1 else 0)
      && |t.sleeps| == (if t.attempts > 0 then t.attempts - 1 else 0)
      && (forall j :: 0 <= j < |t.sleeps| ==> t.sleeps[j] == cfg.backoffMs * Pow2(j))
  {
    if cfg.webkey != "" && SanitizeMc(mc) != "" {
      var endpoint := Endpoint(cfg, SanitizeMc(mc));
      var t := Attempts(cfg, endpoint, now, net, 0, None);
      assert Run(cfg, mc, now, net) == t;
      AttemptsCount(cfg, endpoint, now, net, 0, None);
      forall j | 0 <= j < |t.sleeps| ensures t.sleeps[j] == cfg.backoffMs * Pow2(j) {
        assert t.sleeps[j] == Backoff(cfg, 0 + j);
      }
    }
  }

  /**
   * Past the precheck, the loop stops at the first attempt that is not a
   * timeout: it returns what that attempt settles to, after `k + 1`
   * requests and a sleep after each of the `k` timeouts before it.
   */
  lemma RunStopsAtFirstNonTimeout(cfg: Config, mc: Json, now: string, net: Network, k: nat)
    requires IsScalar(mc) && cfg.webkey != "" && SanitizeMc(mc) != ""
    requires k <= cfg.maxRetries
    requires forall j :: 0 <= j < k ==> Retryable(net(j))
    requires !Retryable(net(k))
    ensures var t := Run(cfg, mc, now, net);
      t.result == Settle(net(k), Endpoint(cfg, SanitizeMc(mc)), now) && t.attempts == k + 1 && |t.sleeps| == k
  {
    var endpoint := Endpoint(cfg, SanitizeMc(mc));
    AttemptsStop(cfg, endpoint, now, net, 0, None);
    AttemptsCount(cfg, endpoint, now, net, 0, None);
    var t := Run(cfg, mc, now, net);
    assert t.attempts - 1 <= k;
  }

  /** When every attempt times out, the result reports the last timeout, after `max_retries + 1` requests. */
  lemma AllTimeouts(cfg: Config, mc: Json, now: string, net: Network)
    requires IsScalar(mc) && cfg.webkey != "" && SanitizeMc(mc) != "" && cfg.maxRetries >= 0
    requires forall j :: 0 <= j <= cfg.maxRetries ==> Retryable(net(j))
    ensures var t := Run(cfg, mc, now, net);
      && t.result == Failure(Endpoint(cfg, SanitizeMc(mc)), now, ErrorText(net(cfg.maxRetries)))
      && t.attempts == cfg.maxRetries + 1
      && |t.sleeps| == cfg.maxRetries
  {
    var endpoint := Endpoint(cfg, SanitizeMc(mc));
    AttemptsStop(cfg, endpoint, now, net, 0, None);
    AttemptsCount(cfg, endpoint, now, net, 0, None);
  }

  /** A negative `max_retries` makes `range` empty: nothing is sent and the result is "request_failed". */
  lemma NoAttemptsMeansRequestFailed(cfg: Config, mc: Json, now: string, net: Network)
    requires IsScalar(mc) && cfg.webkey != "" && SanitizeMc(mc) != "" && cfg.maxRetries < 0
    ensures Run(cfg, mc, now, net) == Trace(Failure(Endpoint(cfg, SanitizeMc(mc)), now, RequestFailed), 0, [])
  {
  }

  /** A body that is not JSON is not retried: it fails with the decoder's message. */
  lemma MalformedBodyIsNotRetried(cfg: Config, mc: Json, now: string, net: Network, k: nat, message: string)
    requires IsScalar(mc) && cfg.webkey != "" && SanitizeMc(mc) != ""
    requires k <= cfg.maxRetries
    requires forall j :: 0 <= j < k ==> Retryable(net(j))
    requires net(k) == Reply(Malformed(message))
    ensures Run(cfg, mc, now, net).result == Failure(Endpoint(cfg, SanitizeMc(mc)), now, message)
    ensures Run(cfg, mc, now, net).attempts == k + 1
  {
    RunStopsAtFirstNonTimeout(cfg, mc, now, net, k);
  }

  // ---------------------------------------------------------------------
  // Extraction
  // ---------------------------------------------------------------------

  lemma UpperIsY(s: string)
    requires Upper(s) == "Y"
    ensures s == "Y" || s == "y"
  {
    assert |s| == 1;
    assert Upper(s) == [UpperChar(s[0])] + Upper(s[1..]);
  }

  /** `str()` of an int starts with a sign or a digit, which upper-casing keeps. */
  lemma IntIsNeverY(i: int)
    ensures Upper(Str(JInt(i))) != "Y"
  {
    var s := Str(JInt(i));
    assert s[0] == '-' || IsDigit(s[0]);
    assert Upper(s) == [UpperChar(s[0])] + Upper(s[1..]);
    assert Upper(s)[0] == s[0] != 'Y';
  }

  /** `str(allowed).upper() == "Y"` holds exactly for the strings "Y" and "y"; an absent flag is not valid. */
  lemma IsAllowedIff(v: Json)
    ensures IsAllowed(v) <==> v == JStr("Y") || v == JStr("y")
  {
    if v.JInt? {
      IntIsNeverY(v.i);
    }
    if v.JStr? && IsAllowed(v) {
      UpperIsY(v.s);
    }
  }

  /**
   * A body that decodes to a dict gives a response carrying it as `raw`,
   * with `error` None exactly when `content` is truthy and "not_found"
   * otherwise; any other JSON value fails on `.get`.
   */
  lemma ExtractShape(data: Json, endpoint: string, now: string)
    ensures var r := Extract(data, endpoint, now);
      && (r.Response? <==> data.JObj?)
      && (r.Response? ==> r.raw == data && r.endpoint == endpoint && r.checkedAt == now
                          && (r.valid <==> r.allowed == JStr("Y") || r.allowed == JStr("y"))
                          && (r.problem.None? <==> Truthy(Get(data.fields, "content")))
                          && (r.problem.Some? ==> r.problem.value == NotFound))
      && (!r.Response? ==> r == Failure(endpoint, now, NoGetAttribute(data)))
  {
    var r := Extract(data, endpoint, now);
    if r.Response? {
      IsAllowedIff(r.allowed);
    }
  }

  /** Only a non-empty `carrier` dict is read; an empty one, or one of another type, falls back to `content`. */
  lemma SourceChoice(content: map<string, Json>)
    ensures Get(content, "carrier") == JObj(map[]) ==> Source(content) == content
    ensures !Get(content, "carrier").JObj? ==> Source(content) == content
    ensures Get(content, "carrier").JObj? && Get(content, "carrier").fields != map[] ==>
              Source(content) == Get(content, "carrier").fields
  {
  }

  /** `dot_number` falls back to `usdotNumber` when `dotNumber` is falsy. */
  lemma DotFallback(data: map<string, Json>, content: map<string, Json>, endpoint: string, now: string)
    requires Get(data, "content") == JObj(content)
    requires !Truthy(Get(Source(content), "dotNumber"))
    ensures Extract(JObj(data), endpoint, now).dot == Get(Source(content), "usdotNumber")
  {
  }

  /** An empty body reads as `{}`: a response with no fields and the "not_found" error. */
  lemma EmptyBodyIsNotFound(endpoint: string, now: string)
    ensures Respond(EmptyBody, endpoint, now)
            == Response(false, JNull, JNull, JNull, endpoint, now, JObj(map[]), Some(NotFound))
  {
    IsAllowedIff(JNull);
  }
}
