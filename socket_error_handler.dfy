/**
 * `SocketErrorHandler`: classifies socket error codes, records every report in
 * statistics, a bounded cache of recent errors and a per-code aggregation,
 * and runs a recovery step (a registered handler, or the code's recovery
 * strategy with exponential retry back-off).
 *
 * Timestamps, `strerror` text and the operation a retry repeats are inputs;
 * sleeping and logging are left out.
 */
module SocketErrorHandler {
  import opened Text
  import opened Seqs
  import V = SocketOptionValidator

  datatype Category = Validation | Connection | Protocol | Authentication | Resource
                    | Configuration | System | Timeout | Data | Internal
  {
    /** The enumerator's number. */
    function Index(): nat
    {
      match this
      case Validation => 0
      case Connection => 1
      case Protocol => 2
      case Authentication => 3
      case Resource => 4
      case Configuration => 5
      case System => 6
      case Timeout => 7
      case Data => 8
      case Internal => 9
    }

    function Name(): string
    {
      match this
      case Validation => "VALIDATION"
      case Connection => "CONNECTION"
      case Protocol => "PROTOCOL"
      case Authentication => "AUTHENTICATION"
      case Resource => "RESOURCE"
      case Configuration => "CONFIGURATION"
      case System => "SYSTEM"
      case Timeout => "TIMEOUT"
      case Data => "DATA"
      case Internal => "INTERNAL"
    }
  }

  datatype Severity = Debug | Info | Warning | Error | Critical | Fatal
  {
    function Level(): nat
    {
      match this
      case Debug => 0
      case Info => 1
      case Warning => 2
      case Error => 3
      case Critical => 4
      case Fatal => 5
    }

    function Name(): string
    {
      match this
      case Debug => "DEBUG"
      case Info => "INFO"
      case Warning => "WARNING"
      case Error => "ERROR"
      case Critical => "CRITICAL"
      case Fatal => "FATAL"
    }
  }

  datatype Recovery = NoRecovery | Retry | Fallback | Reconnect | Restart | Escalate | GracefulShutdown

  // Error codes (`SocketErrorCode`).
  const InvalidOption: int := 1000
  const InvalidValue: int := 1001
  const MissingRequiredOption: int := 1002
  const ConflictingOptions: int := 1003
  const AccessDenied: int := 1004
  const ProtocolMismatch: int := 1005
  const ConnectionFailed: int := 1100
  const ConnectionTimeout: int := 1101
  const ConnectionRefused: int := 1102
  const ConnectionReset: int := 1103
  const HostUnreachable: int := 1104
  const DnsResolutionFailed: int := 1105
  const NetworkUnreachable: int := 1106
  const ConnectionAborted: int := 1107
  const HttpNotFound: int := 1204
  const HttpServerError: int := 1205
  const TlsHandshakeFailed: int := 1300
  const TlsCertificateInvalid: int := 1301
  const AuthTokenInvalid: int := 1310
  const AuthTokenExpired: int := 1311
  const AuthInsufficientPrivileges: int := 1313
  const MemoryExhausted: int := 1400
  const FileDescriptorLimit: int := 1401
  const ConnectionLimitExceeded: int := 1402
  const RateLimitExceeded: int := 1404
  const SystemCallFailed: int := 1600
  const PermissionDenied: int := 1601
  const FileNotFound: int := 1602
  const DeviceBusy: int := 1603
  const OperationTimeout: int := 1700
  const InternalError: int := 1900
  const AssertionFailed: int := 1901
  const InvalidState: int := 1903

  /** `classify_error`: the hundreds range 1000-1899 picks the category. */
  function Classify(code: int): (c: Category)
    ensures c == Internal <==> !(1000 <= code < 1900)
    ensures 1000 <= code < 1900 ==> c.Index() == code / 100 - 10
  {
    if 1000 <= code < 1100 then Validation
    else if 1100 <= code < 1200 then Connection
    else if 1200 <= code < 1300 then Protocol
    else if 1300 <= code < 1400 then Authentication
    else if 1400 <= code < 1500 then Resource
    else if 1500 <= code < 1600 then Configuration
    else if 1600 <= code < 1700 then System
    else if 1700 <= code < 1800 then Timeout
    else if 1800 <= code < 1900 then Data
    else Internal
  }

  /** `determine_severity`: reports are never below WARNING. */
  function DetermineSeverity(code: int): (s: Severity)
    ensures s.Level() >= Warning.Level()
    ensures s == Fatal <==> code in {MemoryExhausted, AssertionFailed, TlsCertificateInvalid}
    ensures s == Critical <==> code in {ConnectionFailed, AuthInsufficientPrivileges, FileDescriptorLimit, InvalidState}
    ensures s == Warning <==> code in {RateLimitExceeded, ConnectionReset}
  {
    if code in {MemoryExhausted, AssertionFailed, TlsCertificateInvalid} then Fatal
    else if code in {ConnectionFailed, AuthInsufficientPrivileges, FileDescriptorLimit, InvalidState} then Critical
    else if code in {RateLimitExceeded, ConnectionReset} then Warning
    else Error
  }

  /** `suggest_recovery`. */
  function SuggestRecovery(code: int): (r: Recovery)
    ensures r in {NoRecovery, Retry, Fallback, Reconnect, Escalate}
    ensures r == Retry <==> code in {ConnectionTimeout, ConnectionFailed, DnsResolutionFailed, OperationTimeout}
  {
    if code in {ConnectionTimeout, ConnectionFailed, DnsResolutionFailed, OperationTimeout} then Retry
    else if code in {ConnectionReset, ConnectionAborted, NetworkUnreachable} then Reconnect
    else if code in {AuthTokenExpired, TlsHandshakeFailed, HttpServerError} then Fallback
    else if code in {MemoryExhausted, FileDescriptorLimit, AssertionFailed} then Escalate
    else NoRecovery
  }

  /** `generate_suggestion`: every code gets a non-empty suggestion. */
  function Suggestion(code: int): (s: string)
    ensures |s| > 0
  {
    if code == InvalidOption then "Check socket option documentation for valid options"
    else if code == InvalidValue then "Verify the option value is within acceptable range and format"
    else if code == ConnectionFailed then "Check network connectivity and remote host availability"
    else if code == ConnectionTimeout then "Increase timeout value or check network conditions"
    else if code == ConnectionRefused then "Verify remote service is running and accessible"
    else if code == AuthTokenExpired then "Refresh authentication token and retry"
    else if code == TlsHandshakeFailed then "Check TLS configuration and certificate validity"
    else if code == MemoryExhausted then "Free system memory or increase available memory"
    else if code == PermissionDenied then "Check file permissions and user privileges"
    else "Review error details and consult documentation"
  }

  /** `SocketError` (the related option and its value are left out). */
  datatype SocketError = SocketError(
    code: int,
    category: Category,
    severity: Severity,
    recovery: Recovery,
    message: string,
    technicalDetails: string,
    suggestion: string,
    context: string,
    socketFd: int,
    systemErrno: int,
    timestamp: int,
    retryCount: int,
    firstOccurrence: int,
    recoveryAttempted: bool,
    recoverySuccessful: bool,
    recoveryDetails: string)

  /** `generate_technical_details` for an error without errno or socket. */
  function TechnicalDetails(code: int): string
  {
    "Error Code: " + IntToString(code) + ", Category: " + Classify(code).Name()
      + ", Severity: " + DetermineSeverity(code).Name()
  }

  /** The error `report_error` builds before recording it. */
  function NewError(code: int, message: string, context: string, now: int): (e: SocketError)
    ensures e.code == code && e.category == Classify(code) && e.severity == DetermineSeverity(code)
    ensures e.recovery == SuggestRecovery(code) && |e.suggestion| > 0
    ensures e.message == message && e.context == context && e.timestamp == now
    ensures !e.recoveryAttempted && e.socketFd == -1 && e.retryCount == 0
  {
    SocketError(code, Classify(code), DetermineSeverity(code), SuggestRecovery(code), message,
      TechnicalDetails(code), Suggestion(code), context, -1, 0, now, 0, now, false, false, "")
  }

  /** `ErrorHandlerConfig`. */
  datatype Config = Config(
    enableLogging: bool,
    enableRecovery: bool,
    enableAggregation: bool,
    enableMetrics: bool,
    maxRetryAttempts: int,
    retryDelayMs: int,
    errorCacheSize: int)

  const DefaultConfig := Config(true, true, true, false, 3, 1000, 1000)

  /** `ErrorStatistics`. */
  datatype Stats = Stats(
    errorCounts: map<int, int>,
    categoryCounts: map<Category, int>,
    severityCounts: map<Severity, int>,
    totalErrors: int,
    recoveryAttempts: int,
    successfulRecoveries: int,
    lastErrorTime: int)

  const NoStats := Stats(map[], map[], map[], 0, 0, 0, 0)

  /** A `std::map` count: a missing key reads as 0. */
  function Count<K>(m: map<K, int>, k: K): int
  {
    if k in m then m[k] else 0
  }

  /** `m[k]++` on a `std::map`. */
  function Bump<K(!new)>(m: map<K, int>, k: K): (r: map<K, int>)
    ensures Count(r, k) == Count(m, k) + 1
    ensures forall j :: j != k ==> Count(r, j) == Count(m, j)
    ensures r.Keys == m.Keys + {k}
  {
    m[k := Count(m, k) + 1]
  }

  /** `update_statistics`. */
  function Updated(s: Stats, e: SocketError): (r: Stats)
    ensures r.totalErrors == s.totalErrors + 1 && r.lastErrorTime == e.timestamp
    ensures Count(r.errorCounts, e.code) == Count(s.errorCounts, e.code) + 1
    ensures forall c :: c != e.code ==> Count(r.errorCounts, c) == Count(s.errorCounts, c)
    ensures Count(r.categoryCounts, e.category) == Count(s.categoryCounts, e.category) + 1
    ensures Count(r.severityCounts, e.severity) == Count(s.severityCounts, e.severity) + 1
    ensures r.recoveryAttempts == s.recoveryAttempts && r.successfulRecoveries == s.successfulRecoveries
  {
    Stats(Bump(s.errorCounts, e.code), Bump(s.categoryCounts, e.category), Bump(s.severityCounts, e.severity),
      s.totalErrors + 1, s.recoveryAttempts, s.successfulRecoveries, e.timestamp)
  }

  /** `aggregate_error`: the first report of a code is kept; later ones count and refresh its time. */
  function Aggregated(agg: map<int, SocketError>, e: SocketError): (r: map<int, SocketError>)
    ensures r.Keys == agg.Keys + {e.code}
    ensures e.code !in agg ==> r[e.code] == e
    ensures e.code in agg ==> (r[e.code].retryCount == agg[e.code].retryCount + 1
      && r[e.code].timestamp == e.timestamp && r[e.code].message == agg[e.code].message)
    ensures forall c :: c in agg && c != e.code ==> r[c] == agg[c]
  {
    if e.code in agg then
      agg[e.code := agg[e.code].(retryCount := agg[e.code].retryCount + 1, timestamp := e.timestamp)]
    else agg[e.code := e]
  }

  /**
   * The recent-error cache after a push: the oldest entry is erased when the
   * size exceeds the limit.  The size is compared as `size_t`, so a negative
   * limit never evicts.
   */
  function Cached(recent: seq<SocketError>, e: SocketError, limit: int): (r: seq<SocketError>)
    ensures |recent| <= limit ==> |r| <= limit
    ensures |recent| <= |r| <= |recent| + 1
    ensures |r| > 0 ==> r[|r| - 1] == e
    ensures r == (recent + [e])[|recent| + 1 - |r|..]
  {
    var pushed := recent + [e];
    if limit >= 0 && |pushed| > limit then pushed[1..] else (assert pushed[0..] == pushed; pushed)
  }

  /** `get_recent_errors(limit)`: everything for a limit outside 1..size-1, else the last `limit`. */
  function Recent(recent: seq<SocketError>, limit: int): (r: seq<SocketError>)
    ensures limit <= 0 || limit >= |recent| ==> r == recent
    ensures 0 < limit < |recent| ==> |r| == limit && r == recent[|recent| - limit..]
  {
    if limit <= 0 || limit >= |recent| then recent else LastN(recent, limit)
  }

  // ---------------------------------------------------------------------------
  // Recovery
  // ---------------------------------------------------------------------------

  /** The recovery handlers the constructor can register; `Custom` is a caller's function, by its verdict. */
  datatype Handler = ConnectionHandler | ValidationHandler | AuthenticationHandler | ResourceHandler
                   | TimeoutHandler | Custom(succeeds: bool)

  /** The handlers the constructor registers. */
  const DefaultHandlers: map<int, Handler> := map[
    ConnectionTimeout := ConnectionHandler, ConnectionFailed := ConnectionHandler,
    InvalidOption := ValidationHandler, AuthTokenExpired := AuthenticationHandler,
    ConnectionLimitExceeded := ResourceHandler, OperationTimeout := TimeoutHandler]

  /** The built-in handlers; only the timeout handler reports success. */
  function RunHandler(h: Handler, e: SocketError): (r: (bool, SocketError))
    ensures r.0 <==> h == TimeoutHandler || (h.Custom? && h.succeeds)
    ensures r.1 == e.(recoveryDetails := r.1.recoveryDetails)
  {
    match h
    case ConnectionHandler =>
      (false, if e.socketFd >= 0 then e.(recoveryDetails := "Connection recovery not yet implemented") else e)
    case ValidationHandler => (false, e.(recoveryDetails := "Validation errors require manual correction"))
    case AuthenticationHandler =>
      (false, if e.code == AuthTokenExpired then e.(recoveryDetails := "Token refresh not yet implemented") else e)
    case ResourceHandler =>
      (false, if e.code == ConnectionLimitExceeded
        then e.(recoveryDetails := "Waiting for connection slots to become available") else e)
    case TimeoutHandler => (true, e.(recoveryDetails := "Timeout errors handled by retry mechanism"))
    case Custom(ok) => (ok, e)
  }

  const MaxRetryDelay: int := 30000

  /** The delay after `k` failed attempts: doubled each time, capped at 30000 ms. */
  function Backoff(base: int, k: nat): (d: int)
    ensures k >= 1 ==> d <= MaxRetryDelay
  {
    if k == 0 then base else Min(Backoff(base, k - 1) * 2, MaxRetryDelay)
  }

  function Pow2(k: nat): nat
  {
    if k == 0 then 1 else 2 * Pow2(k - 1)
  }

  /** A delay after a failure is at most 30000 ms and is `base * 2^k` until it reaches the cap. */
  lemma {:induction false} BackoffClosedForm(base: int, k: nat)
    requires base >= 0 && k >= 1
    ensures Backoff(base, k) == Min(base * Pow2(k), MaxRetryDelay)
  {
    if k > 1 {
      BackoffClosedForm(base, k - 1);
      assert base * Pow2(k) == 2 * (base * Pow2(k - 1));
    }
  }

  /** The delays never shrink once the first failure has been counted. */
  lemma BackoffGrows(base: int, k: nat)
    requires base >= 0 && k >= 1
    ensures Backoff(base, k) <= Backoff(base, k + 1) <= MaxRetryDelay
  {
    BackoffClosedForm(base, k);
    BackoffClosedForm(base, k + 1);
    assert base * Pow2(k + 1) == 2 * (base * Pow2(k));
  }

  function SucceededAfter(n: nat): string { "Succeeded after " + NatToString(n) + " attempts" }

  function FailedAfter(n: int): string { "Failed after " + IntToString(n) + " attempts" }

  /**
   * `retry_operation` from `attempt` on: `op(a)` is the outcome of attempt `a`;
   * the result also lists the delays slept before attempts 2, 3, ...
   */
  function RetriedFrom(max: int, base: int, e: SocketError, op: nat -> bool, attempt: nat)
    : (r: (bool, SocketError, seq<int>))
    requires attempt >= 1
    ensures r.1 == e.(retryCount := r.1.retryCount, recoveryDetails := r.1.recoveryDetails)
    decreases max - attempt
  {
    if attempt > max then
      (false, e.(recoveryDetails := FailedAfter(max)), [])
    else
      var e1 := e.(retryCount := attempt);
      var slept := if attempt > 1 then [Backoff(base, attempt - 1)] else [];
      if op(attempt) then
        (true, e1.(recoveryDetails := SucceededAfter(attempt)), slept)
      else
        var rest := RetriedFrom(max, base, e1, op, attempt + 1);
        (rest.0, rest.1, slept + rest.2)
  }

  function Retried(max: int, base: int, e: SocketError, op: nat -> bool): (bool, SocketError, seq<int>)
  {
    RetriedFrom(max, base, e, op, 1)
  }

  /** What a retry run promises: success iff some attempt succeeds, and the back-off delays. */
  lemma {:induction false} RetriedFromMeaning(max: int, base: int, e: SocketError, op: nat -> bool, attempt: nat)
    requires attempt >= 1
    ensures var r := RetriedFrom(max, base, e, op, attempt);
      (r.0 <==> exists a :: attempt <= a <= max && op(a))
      && (r.0 ==> attempt <= r.1.retryCount <= max && op(r.1.retryCount)
                  && forall a :: attempt <= a < r.1.retryCount ==> !op(a))
      && (!r.0 && attempt <= max ==> r.1.retryCount == max)
      && |r.2| <= Max(max + 1 - Max(attempt, 2), 0)
      && (forall i :: 0 <= i < |r.2| ==> r.2[i] == Backoff(base, Max(attempt - 1, 1) + i))
    decreases max - attempt
  {
    if attempt <= max && !op(attempt) {
      var e1 := e.(retryCount := attempt);
      RetriedFromMeaning(max, base, e1, op, attempt + 1);
      var rest := RetriedFrom(max, base, e1, op, attempt + 1);
      if rest.0 {
        var a :| attempt + 1 <= a <= max && op(a);
      }
    }
  }

  /**
   * A retry run succeeds iff some attempt up to the maximum succeeds, stops at
   * the first success, and sleeps `base * 2^k` (capped at 30 s) before attempt `k + 1`.
   */
  lemma RetriedMeaning(max: int, base: int, e: SocketError, op: nat -> bool)
    ensures var r := Retried(max, base, e, op);
      (r.0 <==> exists a :: 1 <= a <= max && op(a))
      && (r.0 ==> 1 <= r.1.retryCount <= max && op(r.1.retryCount)
                  && forall a :: 1 <= a < r.1.retryCount ==> !op(a))
      && (!r.0 && max >= 1 ==> r.1.retryCount == max)
      && |r.2| <= Max(max - 1, 0)
      && (forall i :: 0 <= i < |r.2| ==> r.2[i] == Backoff(base, i + 1) <= MaxRetryDelay)
  {
    RetriedFromMeaning(max, base, e, op, 1);
    assert Max(1 - 1, 1) == 1 && Max(1, 2) == 2;
  }

  /** `retry_operation`, whose loop sleeps `Backoff` before each attempt after the first. */
  method RetryOperation(max: int, base: int, e0: SocketError, op: nat -> bool)
    returns (ok: bool, e: SocketError, delays: seq<int>)
    ensures (ok, e, delays) == Retried(max, base, e0, op)
  {
    var attempt: nat := 1;
    var delay := base;
    e := e0;
    delays := [];
    ok := false;
    assert delays + RetriedFrom(max, base, e, op, attempt).2 == RetriedFrom(max, base, e, op, attempt).2;
    while attempt <= max
      invariant attempt >= 1 && delay == Backoff(base, attempt - 1)
      invariant var r := RetriedFrom(max, base, e, op, attempt);
        Retried(max, base, e0, op) == (r.0, r.1, delays + r.2)
      decreases max - attempt
    {
      ghost var d0 := delays;
      ghost var now := RetriedFrom(max, base, e, op, attempt);
      ghost var slept := if attempt > 1 then [Backoff(base, attempt - 1)] else [];
      e := e.(retryCount := attempt);
      if attempt > 1 {
        delays := delays + [delay];
      }
      assert delays == d0 + slept;
      if op(attempt) {
        e := e.(recoveryDetails := SucceededAfter(attempt));
        ok := true;
        assert now == (true, e, slept);
        return;
      }
      ghost var rest := RetriedFrom(max, base, e, op, attempt + 1).2;
      assert d0 + (slept + rest) == delays + rest;
      delay := Min(delay * 2, MaxRetryDelay);
      attempt := attempt + 1;
    }
    assert delays + [] == delays;
    e := e.(recoveryDetails := FailedAfter(max));
  }

  /** The handler's settings and records (`SocketErrorHandler` without its log file). */
  datatype State = State(
    config: Config,
    stats: Stats,
    recent: seq<SocketError>,
    aggregation: map<int, SocketError>,
    handlers: map<int, Handler>)

  /** `attempt_recovery`: a registered handler, else the recovery strategy. */
  function RecoveryAttempted(st: State, e: SocketError): (r: (bool, SocketError, State))
    ensures r.2 == st.(stats := st.stats.(recoveryAttempts := st.stats.recoveryAttempts + 1))
    ensures e.code !in st.handlers && e.recovery in {NoRecovery, Reconnect, Restart, Escalate, GracefulShutdown} ==> !r.0
    ensures e.code !in st.handlers && e.recovery == Fallback ==> r.0
    ensures r.1 == e.(retryCount := r.1.retryCount, recoveryDetails := r.1.recoveryDetails)
  {
    var st1 := st.(stats := st.stats.(recoveryAttempts := st.stats.recoveryAttempts + 1));
    if e.code in st.handlers then
      var h := RunHandler(st.handlers[e.code], e);
      (h.0, h.1, st1)
    else
      match e.recovery
      case Retry =>
        var t := Retried(st.config.maxRetryAttempts, st.config.retryDelayMs, e, _ => false);
        (t.0, t.1, st1)
      case Fallback => (true, e, st1)
      case _ => (false, e, st1)
  }

  /** `handle_error`. */
  function ErrorHandled(st: State, e: SocketError): (r: (bool, SocketError, State))
    ensures !st.config.enableRecovery ==> r == (false, e, st)
    ensures st.config.enableRecovery && e.severity.Level() <= Info.Level() ==> r == (true, e, st)
    ensures st.config.enableRecovery && e.recoveryAttempted ==>
      (r.0 == (e.recoverySuccessful || e.severity.Level() <= Info.Level()) && r.1 == e && r.2 == st)
    ensures st.config.enableRecovery && e.severity.Level() > Info.Level() ==> r.1.recoveryAttempted && r.1.recoverySuccessful == r.0
    ensures r.1 == e.(retryCount := r.1.retryCount, recoveryDetails := r.1.recoveryDetails,
                      recoveryAttempted := r.1.recoveryAttempted, recoverySuccessful := r.1.recoverySuccessful)
    ensures r.2.recent == st.recent && r.2.aggregation == st.aggregation && r.2.config == st.config
    ensures r.2.handlers == st.handlers
    ensures r.2.stats.errorCounts == st.stats.errorCounts && r.2.stats.totalErrors == st.stats.totalErrors
  {
    if !st.config.enableRecovery then (false, e, st)
    else if e.severity.Level() <= Info.Level() then (true, e, st)
    else if e.recoveryAttempted then (e.recoverySuccessful, e, st)
    else
      var a := RecoveryAttempted(st, e);
      var e1 := a.1.(recoveryAttempted := true, recoverySuccessful := a.0,
        recoveryDetails := if a.0 then "Recovery successful" else "Recovery failed");
      var st1 := if a.0 then a.2.(stats := a.2.stats.(successfulRecoveries := a.2.stats.successfulRecoveries + 1)) else a.2;
      (a.0, e1, st1)
  }

  /** Handling an error a second time gives the same verdict and changes nothing. */
  lemma HandleTwice(st: State, e: SocketError)
    ensures var first := ErrorHandled(st, e);
      ErrorHandled(first.2, first.1) == (first.0, first.1, first.2)
  {
  }

  /**
   * `report_error`: statistics, aggregation and the recent cache get the new
   * error; recovery then runs on the returned copy only.
   */
  function ErrorReported(st: State, code: int, message: string, context: string, now: int)
    : (r: (SocketError, State))
    ensures var e := NewError(code, message, context, now);
      r.1.stats.totalErrors == st.stats.totalErrors + 1
      && Count(r.1.stats.errorCounts, code) == Count(st.stats.errorCounts, code) + 1
      && (forall c :: c != code ==> Count(r.1.stats.errorCounts, c) == Count(st.stats.errorCounts, c))
      && r.1.recent == Cached(st.recent, e, st.config.errorCacheSize)
      && r.1.aggregation == (if st.config.enableAggregation then Aggregated(st.aggregation, e) else st.aggregation)
    ensures r.0.code == code && r.0.category == Classify(code) && r.0.severity == DetermineSeverity(code)
    ensures r.1.config == st.config && r.1.handlers == st.handlers
  {
    var e := NewError(code, message, context, now);
    var st1 := Recorded(st, e);
    if st.config.enableRecovery then
      var h := ErrorHandled(st1, e);
      (h.1, h.2)
    else (e, st1)
  }

  /** What `report_error` records before recovery runs. */
  function Recorded(st: State, e: SocketError): (r: State)
    ensures r.stats == Updated(st.stats, e)
    ensures r.recent == Cached(st.recent, e, st.config.errorCacheSize)
    ensures r.aggregation == (if st.config.enableAggregation then Aggregated(st.aggregation, e) else st.aggregation)
    ensures r.config == st.config && r.handlers == st.handlers
  {
    st.(stats := Updated(st.stats, e),
      aggregation := if st.config.enableAggregation then Aggregated(st.aggregation, e) else st.aggregation,
      recent := Cached(st.recent, e, st.config.errorCacheSize))
  }

  /** Reports keep the recent cache within `error_cache_size` once it is. */
  lemma ReportKeepsCacheBound(st: State, code: int, message: string, context: string, now: int)
    requires 0 <= st.config.errorCacheSize && |st.recent| <= st.config.errorCacheSize
    ensures |ErrorReported(st, code, message, context, now).1.recent| <= st.config.errorCacheSize
  {
  }

  /** With aggregation on, an aggregated error's retry count is one less than the reports of its code. */
  ghost predicate AggregationCounts(st: State)
  {
    forall c :: Count(st.stats.errorCounts, c)
      == (if c in st.aggregation then st.aggregation[c].retryCount + 1 else 0)
  }

  lemma ReportKeepsAggregationCounts(st: State, code: int, message: string, context: string, now: int)
    requires st.config.enableAggregation && AggregationCounts(st)
    ensures AggregationCounts(ErrorReported(st, code, message, context, now).1)
  {
    var r := ErrorReported(st, code, message, context, now).1;
    forall c
      ensures Count(r.stats.errorCounts, c) == (if c in r.aggregation then r.aggregation[c].retryCount + 1 else 0)
    {
      assert Count(st.stats.errorCounts, c) == (if c in st.aggregation then st.aggregation[c].retryCount + 1 else 0);
    }
  }

  /** `report_error` for `ERROR_CONNECTION_FAILED` is a critical connection error with a suggestion. */
  lemma ConnectionFailedIsCritical(st: State, message: string, context: string, now: int)
    ensures var e := ErrorReported(st, ConnectionFailed, message, context, now).0;
      e.category == Connection && e.severity == Critical && |e.suggestion| > 0
  {
  }

  /** `report_validation_error`'s mapping from validation error types. */
  function ValidationCode(t: V.ErrorType): (code: int)
    ensures Classify(code) == Validation || code == AuthInsufficientPrivileges
    ensures code == AuthInsufficientPrivileges <==> t == V.SecurityViolation
  {
    if t == V.InvalidOption then InvalidOption
    else if t == V.InvalidType || t == V.OutOfRange || t == V.InvalidFormat then InvalidValue
    else if t == V.MissingDependency then MissingRequiredOption
    else if t == V.ConflictingOption then ConflictingOptions
    else if t == V.AccessDenied then AccessDenied
    else if t == V.ProtocolMismatch then ProtocolMismatch
    else if t == V.SecurityViolation then AuthInsufficientPrivileges
    else InvalidValue
  }

  function ValidationSeverity(s: V.Severity): Severity
  {
    match s
    case InfoSeverity => Info
    case WarningSeverity => Warning
    case ErrorSeverity => Error
    case FatalSeverity => Fatal
  }

  /** `report_validation_error`: the returned copy carries the socket, suggestion and severity. */
  function ValidationErrorReported(st: State, v: V.Result, fd: int, context: string, now: int)
    : (r: (SocketError, State))
    ensures r.0.code == ValidationCode(v.errorType) && r.0.socketFd == fd
    ensures r.0.suggestion == v.suggestion && r.0.severity == ValidationSeverity(v.severity)
    ensures r.1 == ErrorReported(st, ValidationCode(v.errorType), v.errorMessage, context, now).1
  {
    var rep := ErrorReported(st, ValidationCode(v.errorType), v.errorMessage, context, now);
    (rep.0.(socketFd := fd, suggestion := v.suggestion, severity := ValidationSeverity(v.severity)), rep.1)
  }

  // Linux errno values `report_system_error` maps.
  const ENOENT: int := 2
  const ENOMEM: int := 12
  const EACCES: int := 13
  const EBUSY: int := 16
  const ENFILE: int := 23
  const EMFILE: int := 24
  const ENETUNREACH: int := 101
  const ECONNABORTED: int := 103
  const ECONNRESET: int := 104
  const ETIMEDOUT: int := 110
  const ECONNREFUSED: int := 111
  const EHOSTUNREACH: int := 113

  const KnownErrnos: set<int> := {ECONNREFUSED, ETIMEDOUT, ECONNRESET, ECONNABORTED, EHOSTUNREACH, ENETUNREACH,
                                  EACCES, ENOENT, EMFILE, ENFILE, ENOMEM, EBUSY}

  /** `report_system_error`'s errno mapping; anything else is a failed system call. */
  function SystemCode(errno: int): (code: int)
    ensures code == SystemCallFailed <==> errno !in KnownErrnos
    ensures errno in {EMFILE, ENFILE} ==> code == FileDescriptorLimit
  {
    if errno == ECONNREFUSED then ConnectionRefused
    else if errno == ETIMEDOUT then ConnectionTimeout
    else if errno == ECONNRESET then ConnectionReset
    else if errno == ECONNABORTED then ConnectionAborted
    else if errno == EHOSTUNREACH then HostUnreachable
    else if errno == ENETUNREACH then NetworkUnreachable
    else if errno == EACCES then PermissionDenied
    else if errno == ENOENT then FileNotFound
    else if errno == EMFILE || errno == ENFILE then FileDescriptorLimit
    else if errno == ENOMEM then MemoryExhausted
    else if errno == EBUSY then DeviceBusy
    else SystemCallFailed
  }

  /** `report_system_error`; `describe` is the `strerror` text. */
  function SystemErrorReported(st: State, errno: int, operation: string, describe: string, fd: int, now: int)
    : (r: (SocketError, State))
    ensures r.0.code == SystemCode(errno) && r.0.systemErrno == errno && r.0.socketFd == fd
    ensures r.0.message == operation + " failed: " + describe && r.0.context == "system_call"
  {
    var rep := ErrorReported(st, SystemCode(errno), operation + " failed: " + describe, "system_call", now);
    (rep.0.(socketFd := fd, systemErrno := errno), rep.1)
  }

  /** `report_protocol_error`. */
  function ProtocolErrorReported(st: State, code: int, details: string, fd: int, now: int)
    : (r: (SocketError, State))
    ensures r.0.code == code && r.0.socketFd == fd && r.0.technicalDetails == details
    ensures r.0.message == details && r.0.context == "protocol_error"
  {
    var rep := ErrorReported(st, code, details, "protocol_error", now);
    (rep.0.(socketFd := fd, technicalDetails := details), rep.1)
  }

  /** `SocketErrorHandler`. */
  class ErrorHandler {
    var config: Config
    var stats: Stats
    var recentErrors: seq<SocketError>
    var aggregation: map<int, SocketError>
    var recoveryHandlers: map<int, Handler>

    function Snapshot(): State
      reads this
    {
      State(config, stats, recentErrors, aggregation, recoveryHandlers)
    }

    /** The default configuration and the six default recovery handlers. */
    constructor()
      ensures Snapshot() == State(DefaultConfig, NoStats, [], map[], DefaultHandlers)
    {
      config := DefaultConfig;
      stats := NoStats;
      recentErrors := [];
      aggregation := map[];
      recoveryHandlers := DefaultHandlers;
    }

    /**
     * `initialize`: new settings and fresh statistics; the caches are kept.
     * A negative cache size converts to a huge `size_t`, so `reserve` throws
     * `length_error` after the settings are stored and before the statistics
     * are reset; `ok` is false for that escaping exception.
     */
    method Initialize(c: Config) returns (ok: bool)
      modifies this
      ensures ok <==> c.errorCacheSize >= 0
      ensures ok ==> Snapshot() == old(Snapshot()).(config := c, stats := NoStats)
      ensures !ok ==> Snapshot() == old(Snapshot()).(config := c)
    {
      config := c;
      if c.errorCacheSize < 0 {
        return false;
      }
      stats := NoStats;
      ok := true;
    }

    method ReportError(code: int, message: string, context: string, now: int) returns (e: SocketError)
      modifies this
      ensures (e, Snapshot()) == ErrorReported(old(Snapshot()), code, message, context, now)
    {
      var r := ErrorReported(Snapshot(), code, message, context, now);
      e := r.0;
      SetState(r.1);
    }

    method ReportValidationError(v: V.Result, fd: int, context: string, now: int) returns (e: SocketError)
      modifies this
      ensures (e, Snapshot()) == ValidationErrorReported(old(Snapshot()), v, fd, context, now)
    {
      var r := ValidationErrorReported(Snapshot(), v, fd, context, now);
      e := r.0;
      SetState(r.1);
    }

    method ReportSystemError(errno: int, operation: string, describe: string, fd: int, now: int)
      returns (e: SocketError)
      modifies this
      ensures (e, Snapshot()) == SystemErrorReported(old(Snapshot()), errno, operation, describe, fd, now)
    {
      var r := SystemErrorReported(Snapshot(), errno, operation, describe, fd, now);
      e := r.0;
      SetState(r.1);
    }

    method ReportProtocolError(code: int, details: string, fd: int, now: int) returns (e: SocketError)
      modifies this
      ensures (e, Snapshot()) == ProtocolErrorReported(old(Snapshot()), code, details, fd, now)
    {
      var r := ProtocolErrorReported(Snapshot(), code, details, fd, now);
      e := r.0;
      SetState(r.1);
    }

    /** `handle_error`, which updates the caller's error in place. */
    method HandleError(e0: SocketError) returns (ok: bool, e: SocketError)
      modifies this
      ensures (ok, e, Snapshot()) == ErrorHandled(old(Snapshot()), e0)
    {
      var r := ErrorHandled(Snapshot(), e0);
      ok, e := r.0, r.1;
      SetState(r.2);
    }

    method SetState(s: State)
      modifies this
      ensures Snapshot() == s
    {
      config, stats, recentErrors, aggregation, recoveryHandlers :=
        s.config, s.stats, s.recent, s.aggregation, s.handlers;
    }

    /** `get_recent_errors`, copying the tail in a loop. */
    method GetRecentErrors(limit: int) returns (result: seq<SocketError>)
      ensures result == Recent(recentErrors, limit)
    {
      if limit <= 0 || limit >= |recentErrors| {
        return recentErrors;
      }
      result := [];
      var start := Max(0, |recentErrors| - limit);
      var i := start;
      while i < |recentErrors|
        invariant start <= i <= |recentErrors|
        invariant result == recentErrors[start..i]
      {
        result := result + [recentErrors[i]];
        i := i + 1;
      }
    }

    method ClearErrorCache()
      modifies this
      ensures Snapshot() == old(Snapshot()).(recent := [], aggregation := map[])
    {
      recentErrors := [];
      aggregation := map[];
    }

    method ResetStatistics()
      modifies this
      ensures Snapshot() == old(Snapshot()).(stats := NoStats)
    {
      stats := NoStats;
    }

    method RegisterRecoveryHandler(code: int, h: Handler)
      modifies this
      ensures Snapshot() == old(Snapshot()).(handlers := old(recoveryHandlers)[code := h])
    {
      recoveryHandlers := recoveryHandlers[code := h];
    }
  }
}
