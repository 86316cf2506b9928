/**
 * `SocketOptionValidator`: checks a socket option value against the option's
 * metadata (type, integer range, string length and allowed values, option
 * specific rules), the caller's access level, the option's dependencies and
 * the security constraints, and caches the verdicts.
 *
 * The URL and IPv4 regular expressions, and `is_option_valid_for_mode` and
 * `validate_security_constraints`, whose definitions are not part of this
 * model, are the predicates of an `Env`.
 */
module SocketOptionValidator {
  import opened Text
  import opened SocketOptions
  import Wrappers

  datatype ErrorType =
    | NoError | InvalidOption | InvalidType | OutOfRange | InvalidFormat | MissingDependency
    | ConflictingOption | AccessDenied | ProtocolMismatch | ResourceLimit | SecurityViolation

  datatype Severity = InfoSeverity | WarningSeverity | ErrorSeverity | FatalSeverity

  /** `ValidationResult`. */
  datatype Result = Result(
    isValid: bool,
    errorType: ErrorType,
    severity: Severity,
    errorMessage: string,
    suggestion: string,
    conflicting: seq<int>,
    required: seq<int>)

  /** `ValidationResult()`. */
  const Success := Result(true, NoError, InfoSeverity, "", "", [], [])

  /** `ValidationResult(type, message)`. */
  function Failure(t: ErrorType, message: string): Result
  {
    Result(false, t, ErrorSeverity, message, "", [], [])
  }

  /** `ValidationContext`. */
  datatype Context = Context(
    socketMode: int,
    access: Access,
    currentOptions: map<int, Value>,
    callerId: string,
    strictMode: bool,
    securityMode: bool)

  const DefaultContext := Context(-1, Public, map[], "", false, true)

  /** `OptionMetadata` (string lengths are never negative in the table). */
  datatype Metadata = Metadata(
    optionId: int,
    valueType: OptionType,
    category: Category,
    access: Access,
    validModes: seq<int>,
    hasDefault: bool,
    defaultValue: Value,
    hasRangeLimits: bool,
    minInt: int,
    maxInt: int,
    minFloat: real,
    maxFloat: real,
    hasStringConstraints: bool,
    minLength: nat,
    maxLength: nat,
    validStrings: seq<string>,
    required: seq<int>,
    conflicting: seq<int>)

  /** `OptionMetadata()` for one option. */
  function Blank(id: int, t: OptionType, c: Category, a: Access): Metadata
  {
    Metadata(id, t, c, a, [], false, Undefined, false, 0, 0, 0.0, 0.0, false, 0, 0, [], [], [])
  }

  function IntRange(m: Metadata, lo: int, hi: int, d: int): Metadata
  {
    m.(hasRangeLimits := true, minInt := lo, maxInt := hi, hasDefault := true, defaultValue := Number(d))
  }

  function Lengths(m: Metadata, lo: nat, hi: nat): Metadata
  {
    m.(hasStringConstraints := true, minLength := lo, maxLength := hi)
  }

  const HttpMethods: seq<string> := ["GET", "POST", "PUT", "DELETE", "PATCH", "HEAD", "OPTIONS", "TRACE"]

  /** The table `initialize` registers (`initialize_*_metadata`). */
  function DefaultMetadata(): (t: map<int, Metadata>)
    ensures forall o :: o in t ==> t[o].optionId == o
    ensures MqttQos in t && t[MqttQos].valueType == IntegerType
    ensures TlsVerifyPeer in t && t[TlsVerifyPeer].valueType == BooleanType
  {
    map[
      TlsVerifyPeer := Blank(TlsVerifyPeer, BooleanType, TlsCategory, Owner).(
        hasDefault := true, defaultValue := Number(1),
        validModes := [SocketStreamTls, SocketStreamTlsBinary, HttpsServer, HttpsClient]),
      TlsSniHostname := Lengths(Blank(TlsSniHostname, StringType, TlsCategory, Public), 1, 253).(
        validModes := [SocketStreamTls, SocketStreamTlsBinary, HttpsClient, WebsocketTlsClient]),
      Keepalive := Blank(Keepalive, BooleanType, CoreCategory, Public).(hasDefault := true, defaultValue := Number(0)),
      Timeout := IntRange(Blank(Timeout, IntegerType, CoreCategory, Public), 1000, 300000, 30000),
      HttpUrl := Lengths(Blank(HttpUrl, StringType, HttpCategory, Public), 1, 2048).(
        validModes := [HttpClient, HttpsClient]),
      HttpMethod := Blank(HttpMethod, StringType, HttpCategory, Public).(
        hasStringConstraints := true, validStrings := HttpMethods,
        hasDefault := true, defaultValue := Str("GET"), validModes := [HttpClient, HttpsClient]),
      RestJwtSecret := Lengths(Blank(RestJwtSecret, StringType, RestCategory, Privileged), 32, 512).(
        validModes := [RestServer]),
      WsProtocol := Lengths(Blank(WsProtocol, StringType, WebSocketCategory, Public), 1, 64).(
        validModes := [WebsocketServer, WebsocketClient, WebsocketTlsServer, WebsocketTlsClient]),
      MqttQos := IntRange(Blank(MqttQos, IntegerType, MqttCategory, Public), 0, 2, 0).(
        validModes := [MqttClient, MqttTlsClient]),
      ExternalCommand := Lengths(Blank(ExternalCommand, StringType, ExternalCategory, Privileged), 1, 4096).(
        validModes := [ExternalProcess, ExternalCommandMode]),
      CacheTtl := IntRange(Blank(CacheTtl, IntegerType, CacheCategory, Owner), MinCacheTtl, MaxCacheTtl, DefaultCacheTtl)
    ]
  }

  /** The category policy `initialize(true)` installs. */
  const DefaultPolicy: map<Category, Access> := map[
    CoreCategory := Public, HttpCategory := Public, RestCategory := Owner,
    WebSocketCategory := Public, MqttCategory := Owner, ExternalCategory := Privileged,
    CacheCategory := Owner, TlsCategory := Privileged, ApacheCategory := System,
    InternalCategory := System]

  /** Code this model does not see: the regex validators and two undefined members. */
  datatype Env = Env(
    validForMode: (int, int) -> bool,
    securityConstraints: (int, Value, Context) -> bool,
    urlFormat: string -> bool,
    ipAddress: string -> bool)

  /** The settings one validator consults. */
  datatype Config = Config(
    metadata: map<int, Metadata>,
    securityEnabled: bool,
    trusted: seq<string>,
    policy: map<Category, Access>)

  // ---------------------------------------------------------------------------
  // Small format predicates
  // ---------------------------------------------------------------------------

  predicate ValidTimeout(ms: int) { 0 <= ms <= 300000 }

  predicate ValidJwtSecret(secret: string) { |secret| >= 32 }

  predicate ValidFilePath(path: string) { |path| > 0 && path[0] == '/' && |path| < 4096 }

  /** `validate_websocket_protocol`. */
  predicate ValidWebSocketProtocol(p: string)
  {
    1 <= |p| <= 64 && forall i :: 0 <= i < |p| ==> IsAlnum(p[i]) || p[i] == '-' || p[i] == '.'
  }

  /** `'a', 'b', ...` as the allowed-values message lists them. */
  function QuotedList(values: seq<string>): string
  {
    if values == [] then ""
    else if |values| == 1 then "'" + values[0] + "'"
    else QuotedList(values[..|values| - 1]) + ", '" + values[|values| - 1] + "'"
  }

  // ---------------------------------------------------------------------------
  // Type-specific validation
  // ---------------------------------------------------------------------------

  /** `validate_integer_option`. */
  function ValidateInteger(meta: map<int, Metadata>, option: int, v: int): (r: Result)
    ensures r.isValid ==> option in meta && r == Success
    ensures option in meta && meta[option].hasRangeLimits && !(meta[option].minInt <= v <= meta[option].maxInt)
      ==> r.errorType == OutOfRange && r.suggestion != ""
    ensures option == MqttQos && !(0 <= v <= 2) ==> !r.isValid
    ensures option in {Timeout, HttpTimeout, HttpConnectTimeout, HttpReadTimeout} && !ValidTimeout(v) ==> !r.isValid
  {
    if option !in meta then Failure(InvalidOption, "No metadata for option")
    else
      var m := meta[option];
      if m.hasRangeLimits && (v < m.minInt || v > m.maxInt) then
        Failure(OutOfRange, "Value " + IntToString(v) + " is out of range [" + IntToString(m.minInt) + ", "
          + IntToString(m.maxInt) + "] for option " + IntToString(option)).(
          suggestion := "Use a value between " + IntToString(m.minInt) + " and " + IntToString(m.maxInt))
      else if option in {Timeout, HttpTimeout, HttpConnectTimeout, HttpReadTimeout} && !ValidTimeout(v) then
        Failure(OutOfRange, "Invalid timeout value: " + IntToString(v) + "ms")
      else if option in {Rcvbuf, Sndbuf, BufferSize} && (v <= 0 || v > 16 * 1024 * 1024) then
        Failure(OutOfRange, "Buffer size must be between 1 and 16MB")
      else if option == MaxConnections && (v <= 0 || v > 10000) then
        Failure(OutOfRange, "Max connections must be between 1 and 10000")
      else if option == WsMaxMessageSize && (v < MinWsMessageSize || v > MaxWsMessageSize) then
        Failure(OutOfRange, "WebSocket message size out of range")
      else if option == MqttKeepAlive && (v < MinMqttKeepAlive || v > MaxMqttKeepAlive) then
        Failure(OutOfRange, "MQTT keep-alive must be between 10 and 3600 seconds")
      else if option == MqttQos && (v < 0 || v > 2) then
        Failure(OutOfRange, "MQTT QoS must be 0, 1, or 2")
      else Success
  }

  /**
   * The length test of `validate_string_option` as written: it runs whenever
   * `has_string_constraints` is set, even when the bounds were left at 0.
   */
  predicate LengthRejectedAsWritten(m: Metadata, s: string)
  {
    m.hasStringConstraints && (|s| < m.minLength || |s| > m.maxLength)
  }

  /** The length test as the metadata for `HTTP_METHOD` needs it: unset bounds (both 0) are not checked. */
  predicate LengthRejected(m: Metadata, s: string)
  {
    m.hasStringConstraints && m.maxLength > 0 && (|s| < m.minLength || |s| > m.maxLength)
  }

  /** `validate_string_option` (with the length test of `LengthRejected`). */
  function ValidateString(env: Env, meta: map<int, Metadata>, option: int, s: string): (r: Result)
    ensures r.isValid ==> option in meta && r == Success
    ensures r.isValid && option in meta && meta[option].hasStringConstraints && meta[option].validStrings != []
      ==> s in meta[option].validStrings
    ensures option == HttpMethod && r.isValid ==> Upper(s) in HttpMethods
    ensures option in {WsProtocol, WsSubprotocol} && !ValidWebSocketProtocol(s) ==> !r.isValid
    ensures option == RestJwtSecret && !ValidJwtSecret(s) ==> !r.isValid
    ensures option == MqttClientId && |s| > 23 ==> !r.isValid
  {
    if option !in meta then Failure(InvalidOption, "No metadata for option")
    else
      var m := meta[option];
      if LengthRejected(m, s) then
        Failure(OutOfRange, "String length " + NatToString(|s|) + " is out of range [" + NatToString(m.minLength)
          + ", " + NatToString(m.maxLength) + "] for option " + IntToString(option))
      else if m.hasStringConstraints && m.validStrings != [] && s !in m.validStrings then
        Failure(InvalidFormat, "Invalid value '" + s + "' for option " + IntToString(option)
          + ". Valid values are: " + QuotedList(m.validStrings))
      else if option == HttpUrl && !env.urlFormat(s) then
        Failure(InvalidFormat, "Invalid URL format: " + s).(
          suggestion := "Use format: http://host[:port][/path] or https://host[:port][/path]")
      else if option == HttpMethod && Upper(s) !in HttpMethods then
        Failure(InvalidFormat, "Invalid HTTP method: " + s)
      else if option == TlsSniHostname && (|s| == 0 || |s| > 253) then
        Failure(InvalidFormat, "Invalid SNI hostname length")
      else if option == MqttBroker && !env.urlFormat(s) && !env.ipAddress(s) then
        Failure(InvalidFormat, "Invalid MQTT broker address: " + s)
      else if option == MqttClientId && |s| > 23 then
        Failure(OutOfRange, "MQTT client ID too long (max 23 characters)")
      else if option in {WsProtocol, WsSubprotocol} && !ValidWebSocketProtocol(s) then
        Failure(InvalidFormat, "Invalid WebSocket protocol name: " + s)
      else if option == ExternalCommand && !ValidFilePath(s) then
        Failure(InvalidFormat, "Invalid executable path: " + s)
      else if option == RestJwtSecret && !ValidJwtSecret(s) then
        Failure(InvalidFormat, "Invalid JWT secret format")
      else Success
  }

  /** `validate_boolean_option`. */
  function ValidateBoolean(option: int, b: bool, ctx: Context): (r: Result)
    ensures !r.isValid <==> option == TlsVerifyPeer && ctx.securityMode && ctx.strictMode && !b
    ensures !r.isValid ==> r.errorType == SecurityViolation && r.severity == FatalSeverity
    ensures r.isValid && r.severity == WarningSeverity ==> option == ExternalAsync && b
  {
    if option == TlsVerifyPeer && ctx.securityMode && ctx.strictMode && !b then
      Failure(SecurityViolation, "TLS peer verification cannot be disabled in strict security mode").(
        severity := FatalSeverity, suggestion := "Enable TLS peer verification for security")
    else if option == ExternalAsync && b && ctx.strictMode then
      Success.(severity := WarningSeverity,
        errorMessage := "Async external processes may consume additional resources",
        suggestion := "Monitor process resource usage")
    else Success
  }

  /** `validate_float_option` on finite values. */
  function ValidateFloat(meta: map<int, Metadata>, option: int, x: real): (r: Result)
    ensures r.isValid <==> (option in meta
      && (meta[option].hasRangeLimits ==> meta[option].minFloat <= x <= meta[option].maxFloat))
  {
    if option !in meta then Failure(InvalidOption, "No metadata for option")
    else
      var m := meta[option];
      if m.hasRangeLimits && (x < m.minFloat || x > m.maxFloat) then
        Failure(OutOfRange, "Float value is out of range for option " + IntToString(option))
      else Success
  }

  /** `validate_mapping_option` and `validate_array_option`: only a null value fails. */
  function ValidateContainer(present: bool, what: string): (r: Result)
    ensures r.isValid <==> present
    ensures !r.isValid ==> r.errorType == InvalidType
  {
    if !present then Failure(InvalidType, what + " value cannot be null") else Success
  }

  // ---------------------------------------------------------------------------
  // Access and dependencies
  // ---------------------------------------------------------------------------

  predicate Trusted(cfg: Config, callerId: string) { callerId in cfg.trusted }

  /** `validate_access_permissions`. */
  function ValidateAccess(cfg: Config, option: int, caller: Access, callerId: string): (r: Result)
    ensures r.isValid <==> (!cfg.securityEnabled
      || (option in cfg.metadata
          && (Trusted(cfg, callerId)
              || (caller.Level() >= cfg.metadata[option].access.Level()
                  && (cfg.metadata[option].category in cfg.policy
                      ==> caller.Level() >= cfg.policy[cfg.metadata[option].category].Level())))))
    ensures !r.isValid ==> r.errorType in {InvalidOption, AccessDenied}
    ensures !r.isValid && option in cfg.metadata && caller.Level() < cfg.metadata[option].access.Level()
      ==> r.severity == FatalSeverity
  {
    if !cfg.securityEnabled then Success
    else if option !in cfg.metadata then Failure(InvalidOption, "No metadata for option")
    else if Trusted(cfg, callerId) then Success
    else
      var m := cfg.metadata[option];
      if caller.Level() < m.access.Level() then
        Failure(AccessDenied, "Access denied for option " + IntToString(option) + ". Required access level: "
          + m.access.Name() + ", caller access level: " + caller.Name()).(severity := FatalSeverity)
      else if m.category in cfg.policy && caller.Level() < cfg.policy[m.category].Level() then
        Failure(AccessDenied, "Insufficient access level for option category")
      else Success
  }

  /** The first option of `options` that `present` lacks (`want`) or has (`!want`). */
  function FirstWhere(options: seq<int>, present: map<int, Value>, want: bool): (r: Wrappers.Option<int>)
    ensures r.Some? ==> r.value in options && (r.value in present) != want
    ensures r.Some? ==> exists k :: (0 <= k < |options| && options[k] == r.value
      && forall j :: 0 <= j < k ==> (options[j] in present) == want)
    ensures r.None? <==> forall j :: 0 <= j < |options| ==> (options[j] in present) == want
  {
    if options == [] then Wrappers.None
    else if (options[0] in present) != want then Wrappers.Some(options[0])
    else
      var rest := FirstWhere(options[1..], present, want);
      if rest.Some? then
        ghost var k :| 0 <= k < |options| - 1 && options[1..][k] == rest.value
          && forall j :: 0 <= j < k ==> (options[1..][j] in present) == want;
        assert options[k + 1] == rest.value;
        Wrappers.Some(rest.value)
      else rest
  }

  /** `validate_dependencies`: the first missing required option, else the first present conflicting one. */
  function ValidateDependencies(meta: map<int, Metadata>, option: int, current: map<int, Value>): (r: Result)
    ensures r.isValid <==> (option in meta
      && (forall x :: x in meta[option].required ==> x in current)
      && (forall x :: x in meta[option].conflicting ==> x !in current))
    ensures r.errorType == MissingDependency ==> |r.required| == 1 && r.required[0] !in current
    ensures r.errorType == ConflictingOption ==> |r.conflicting| == 1 && r.conflicting[0] in current
  {
    if option !in meta then Failure(InvalidOption, "No metadata for option")
    else
      var m := meta[option];
      match FirstWhere(m.required, current, true)
      case Some(missing) =>
        Failure(MissingDependency, "Option " + IntToString(option) + " requires option "
          + IntToString(missing) + " to be set").(required := [missing])
      case None =>
        match FirstWhere(m.conflicting, current, false)
        case Some(clash) =>
          Failure(ConflictingOption, "Option " + IntToString(option) + " conflicts with option "
            + IntToString(clash)).(conflicting := [clash])
        case None => Success
  }

  // ---------------------------------------------------------------------------
  // Whole-option validation
  // ---------------------------------------------------------------------------

  /** The type-specific step of `validate_option_internal`. */
  function ValidateTyped(env: Env, cfg: Config, m: Metadata, option: int, value: Value, ctx: Context): (r: Result)
    requires option in cfg.metadata && m == cfg.metadata[option]
    ensures m.valueType == MixedType ==> r.isValid
    ensures m.valueType == IntegerType && r.isValid ==> (value.Number?
      && ValidateInteger(cfg.metadata, option, Int32Of(value.n)).isValid)
    ensures m.valueType == StringType && r.isValid ==> (value.Str?
      && ValidateString(env, cfg.metadata, option, value.s).isValid)
    ensures m.valueType == BooleanType && r.isValid ==> value.Number?
  {
    var o := IntToString(option);
    match m.valueType
    case IntegerType =>
      if !value.Number? then Failure(InvalidType, "Expected integer value for option " + o)
      else ValidateInteger(cfg.metadata, option, Int32Of(value.n))
    case StringType =>
      if !value.Str? then Failure(InvalidType, "Expected string value for option " + o)
      else ValidateString(env, cfg.metadata, option, value.s)
    case BooleanType =>
      if !value.Number? then Failure(InvalidType, "Expected boolean value for option " + o)
      else ValidateBoolean(option, value.n != 0, ctx)
    case FloatType =>
      if value.Real? then ValidateFloat(cfg.metadata, option, value.r)
      else if value.Number? then ValidateFloat(cfg.metadata, option, value.n as real)
      else Failure(InvalidType, "Expected numeric value for option " + o)
    case MappingType =>
      if !value.Mapping? then Failure(InvalidType, "Expected mapping value for option " + o)
      else ValidateContainer(value.present, "Mapping")
    case ArrayType =>
      if !value.Array? then Failure(InvalidType, "Expected array value for option " + o)
      else ValidateContainer(value.present, "Array")
    case MixedType => Success
  }

  /**
   * `validate_option_internal`: existence, access, socket mode, type, dependencies
   * and security, in that order; a passing type check's warning is not returned.
   */
  function ValidateInternal(env: Env, cfg: Config, option: int, value: Value, ctx: Context): (r: Result)
    ensures r.isValid ==> r == Success && option in cfg.metadata
    ensures r.isValid && cfg.securityEnabled ==> ValidateAccess(cfg, option, ctx.access, ctx.callerId).isValid
    ensures r.isValid && ctx.socketMode >= 0 ==> env.validForMode(option, ctx.socketMode)
    ensures r.isValid ==> ValidateDependencies(cfg.metadata, option, ctx.currentOptions).isValid
    ensures r.isValid ==> ValidateTyped(env, cfg, cfg.metadata[option], option, value, ctx).isValid
  {
    if option !in cfg.metadata then
      Failure(InvalidOption, "Unknown or invalid socket option: " + IntToString(option))
    else
      var m := cfg.metadata[option];
      var access := ValidateAccess(cfg, option, ctx.access, ctx.callerId);
      if cfg.securityEnabled && !access.isValid then access
      else if ctx.socketMode >= 0 && !env.validForMode(option, ctx.socketMode) then
        Failure(ProtocolMismatch, "Option " + IntToString(option) + " is not valid for socket mode "
          + IntToString(ctx.socketMode))
      else
        var typed := ValidateTyped(env, cfg, m, option, value, ctx);
        if !typed.isValid then typed
        else
          var deps := ValidateDependencies(cfg.metadata, option, ctx.currentOptions);
          if !deps.isValid then deps
          else if cfg.securityEnabled && ctx.securityMode && !env.securityConstraints(option, value, ctx) then
            Failure(SecurityViolation, "Security constraint violation for option " + IntToString(option))
          else Success
  }

  /**
   * An MQTT QoS outside 0..2 is rejected whatever the caller and mode, for
   * every number whose low 32 bits, read as an `int`, lie outside 0..2.
   */
  lemma QosOutOfRangeRejected(env: Env, cfg: Config, q: int, ctx: Context)
    requires MqttQos in cfg.metadata && cfg.metadata[MqttQos].valueType == IntegerType
    requires !(0 <= Int32Of(q) <= 2)
    ensures !ValidateInternal(env, cfg, MqttQos, Number(q), ctx).isValid
  {
  }

  /**
   * An integer option judges a number by its low 32 bits only
   * (`validate_integer_option` takes an `int`): adding 2^32 changes nothing.
   */
  lemma IntegerValueNarrowed(env: Env, cfg: Config, option: int, n: int, ctx: Context)
    requires option in cfg.metadata && cfg.metadata[option].valueType == IntegerType
    ensures var m := cfg.metadata[option];
      ValidateTyped(env, cfg, m, option, Number(n + 0x1_0000_0000), ctx) == ValidateTyped(env, cfg, m, option, Number(n), ctx)
  {
    assert Int32Of(n + 0x1_0000_0000) == Int32Of(n);
  }

  /** So under the default table 2^32 passes the QoS check as 0 does, though it lies outside 0..2. */
  lemma WideQosAccepted(env: Env, cfg: Config, ctx: Context)
    requires cfg.metadata == DefaultMetadata()
    ensures ValidateTyped(env, cfg, cfg.metadata[MqttQos], MqttQos, Number(0x1_0000_0000), ctx).isValid
  {
    assert Int32Of(0x1_0000_0000) == 0;
  }

  /** Disabling TLS peer verification in strict security mode is a fatal violation. */
  lemma StrictTlsVerifyPeer(env: Env, cfg: Config, ctx: Context)
    requires TlsVerifyPeer in cfg.metadata && cfg.metadata[TlsVerifyPeer].valueType == BooleanType
    requires ctx.securityMode && ctx.strictMode
    ensures !ValidateInternal(env, cfg, TlsVerifyPeer, Number(0), ctx).isValid
  {
  }

  /** Under the default table, `HTTP_METHOD` accepts exactly the eight listed methods. */
  lemma HttpMethodAccepted(env: Env, s: string)
    ensures ValidateString(env, DefaultMetadata(), HttpMethod, s).isValid <==> s in HttpMethods
  {
    var m := DefaultMetadata()[HttpMethod];
    assert !LengthRejected(m, s);
    if s in HttpMethods {
      UpperOfUpper(s);
    }
  }

  lemma UpperOfUpper(s: string)
    requires s in HttpMethods
    ensures Upper(s) == s
  {
    var k :| 0 <= k < |HttpMethods| && HttpMethods[k] == s;
    assert Upper(s) == s by {
      forall i | 0 <= i < |s| ensures Upper(s)[i] == s[i] {
        assert 'A' <= s[i] <= 'Z';
      }
    }
  }

  /** As written, the unset length bounds of `HTTP_METHOD` reject "GET". */
  lemma HttpMethodRejectedAsWritten()
    ensures LengthRejectedAsWritten(DefaultMetadata()[HttpMethod], "GET")
    ensures !LengthRejected(DefaultMetadata()[HttpMethod], "GET")
  {
  }

  /**
   * With string constraints on and both bounds left at 0, the test as written
   * rejects every non-empty string; the corrected test rejects none.
   */
  lemma UnsetBoundsRejectNonEmpty(m: Metadata, s: string)
    requires m.hasStringConstraints && m.minLength == 0 && m.maxLength == 0
    ensures LengthRejectedAsWritten(m, s) <==> s != []
    ensures !LengthRejected(m, s)
  {
  }

  // ---------------------------------------------------------------------------
  // The validation cache
  // ---------------------------------------------------------------------------

  /**
   * `generate_cache_key` as written: the option, socket mode, access level and
   * strict flag; the value, caller and current options are not part of it.
   */
  datatype WrittenKey = WrittenKey(option: int, socketMode: int, access: Access, strict: bool)

  function WrittenKeyOf(option: int, ctx: Context): WrittenKey
  {
    WrittenKey(option, ctx.socketMode, ctx.access, ctx.strictMode)
  }

  /** `validate_option` with the written key. */
  function ValidateCachedAsWritten(env: Env, cfg: Config, cache: map<WrittenKey, Result>, option: int, value: Value, ctx: Context)
    : (res: (Result, map<WrittenKey, Result>))
    ensures WrittenKeyOf(option, ctx) in res.1
  {
    var key := WrittenKeyOf(option, ctx);
    if key in cache then (cache[key], cache)
    else
      var r := ValidateInternal(env, cfg, option, value, ctx);
      (r, cache[key := r])
  }

  /** A timeout of 500 ms validated after one of 30000 ms gets the cached success. */
  lemma StaleVerdictAsWritten(env: Env)
    ensures var cfg := Config(DefaultMetadata(), true, [], DefaultPolicy);
      var ctx := DefaultContext.(securityMode := false);
      var first := ValidateCachedAsWritten(env, cfg, map[], Timeout, Number(30000), ctx);
      var second := ValidateCachedAsWritten(env, cfg, first.1, Timeout, Number(500), ctx);
      second.0.isValid && !ValidateInternal(env, cfg, Timeout, Number(500), ctx).isValid
  {
    var cfg := Config(DefaultMetadata(), true, [], DefaultPolicy);
    var ctx := DefaultContext.(securityMode := false);
    assert ValidateDependencies(cfg.metadata, Timeout, ctx.currentOptions).isValid;
    assert ValidateInternal(env, cfg, Timeout, Number(30000), ctx).isValid;
    assert !ValidateInteger(cfg.metadata, Timeout, 500).isValid;
  }

  /** The cache key of this model: every input the verdict depends on. */
  datatype CacheKey = CacheKey(config: Config, option: int, value: Value, context: Context)

  /** `SocketOptionValidator`. */
  class Validator {
    var metadata: map<int, Metadata>
    var securityEnabled: bool
    var trusted: seq<string>
    var policy: map<Category, Access>
    var cache: map<CacheKey, Result>
    var cacheHits: int
    var cacheMisses: int
    const env: Env

    function Settings(): Config
      reads this
    {
      Config(metadata, securityEnabled, trusted, policy)
    }

    /** Every cached verdict is the verdict of its key. */
    ghost predicate Valid()
      reads this
    {
      forall k :: k in cache ==> cache[k] == ValidateInternal(env, k.config, k.option, k.value, k.context)
    }

    /**
     * The constructor runs `initialize()` only for the first validator; a later
     * one keeps security enabled but has no category policy.
     */
    constructor(env: Env, first: bool)
      ensures Valid() && this.env == env
      ensures metadata == DefaultMetadata() && securityEnabled && trusted == [] && cache == map[]
      ensures policy == (if first then DefaultPolicy else map[])
      ensures cacheHits == 0 && cacheMisses == 0
    {
      this.env := env;
      metadata := DefaultMetadata();
      securityEnabled := true;
      trusted := [];
      policy := if first then DefaultPolicy else map[];
      cache := map[];
      cacheHits := 0;
      cacheMisses := 0;
    }

    /** `initialize(enable_security)`: the policy is installed only when security is on. */
    method Initialize(enable: bool)
      requires Valid()
      modifies this
      ensures Valid()
      ensures securityEnabled == enable
      ensures policy == if enable then old(policy) + DefaultPolicy else old(policy)
      ensures metadata == old(metadata) && trusted == old(trusted) && cache == old(cache)
      ensures cacheHits == old(cacheHits) && cacheMisses == old(cacheMisses)
    {
      securityEnabled := enable;
      if enable {
        policy := policy + DefaultPolicy;
      }
    }

    /** `validate_option`: a cached verdict is the same as a fresh one. */
    method ValidateOption(option: int, value: Value, ctx: Context) returns (r: Result)
      requires Valid()
      modifies this
      ensures Valid()
      ensures r == ValidateInternal(env, Settings(), option, value, ctx)
      ensures Settings() == old(Settings())
      ensures cacheHits + cacheMisses == old(cacheHits) + old(cacheMisses) + 1
    {
      var key := CacheKey(Settings(), option, value, ctx);
      if key in cache {
        cacheHits := cacheHits + 1;
        r := cache[key];
      } else {
        cacheMisses := cacheMisses + 1;
        r := ValidateInternal(env, Settings(), option, value, ctx);
        cache := cache[key := r];
      }
    }

    method SetSecurityEnabled(enabled: bool)
      requires Valid()
      modifies this
      ensures Valid() && Settings() == old(Settings()).(securityEnabled := enabled)
      ensures cache == old(cache)
    {
      securityEnabled := enabled;
    }

    method AddTrustedCaller(callerId: string)
      requires Valid()
      modifies this
      ensures Valid() && Settings() == old(Settings()).(trusted := old(trusted) + [callerId])
      ensures Trusted(Settings(), callerId)
      ensures cache == old(cache)
    {
      trusted := trusted + [callerId];
    }

    method SetCategoryAccessPolicy(c: Category, level: Access)
      requires Valid()
      modifies this
      ensures Valid() && Settings() == old(Settings()).(policy := old(policy)[c := level])
      ensures cache == old(cache)
    {
      policy := policy[c := level];
    }

    /** `register_option_metadata`. */
    method RegisterOptionMetadata(m: Metadata)
      requires Valid()
      modifies this
      ensures Valid() && Settings() == old(Settings()).(metadata := old(metadata)[m.optionId := m])
      ensures cache == old(cache)
    {
      metadata := metadata[m.optionId := m];
    }

    method ClearValidationCache()
      modifies this
      ensures Valid() && cache == map[] && Settings() == old(Settings())
      ensures cacheHits == old(cacheHits) && cacheMisses == old(cacheMisses)
    {
      cache := map[];
    }

    /** `is_valid_option`, `get_option_type` and `get_option_category`. */
    function TypeOf(option: int): SocketOptions.OptionType
      reads this
    {
      if option in metadata then metadata[option].valueType else MixedType
    }

    function CategoryOf(option: int): Category
      reads this
    {
      if option in metadata then metadata[option].category else CoreCategory
    }
  }
}
