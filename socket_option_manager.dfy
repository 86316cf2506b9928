/**
 * The per-socket option store: the shared descriptor table, the values a
 * socket has set, access checks against the caller's level, type checks and
 * conversions, and the protocol mode flags a setting switches on.
 */
module SocketOptionManager {
  import opened Text
  import opened SocketOptions
  import opened Wrappers

  /** `SocketOptionDescriptor`. */
  datatype Descriptor = Descriptor(
    valueType: OptionType,
    category: Category,
    access: Access,
    defaultValue: Value,
    hasConstraints: bool,
    minInt: int,
    maxInt: int)

  /**
   * `register_option`: integer bounds are kept only for an integer option
   * whose two bounds differ; every other descriptor is unconstrained.
   */
  function Registration(t: OptionType, c: Category, a: Access, default: Value, minInt: int, maxInt: int): (d: Descriptor)
    ensures d.valueType == t && d.category == c && d.access == a && d.defaultValue == default
    ensures d.hasConstraints <==> t == IntegerType && minInt != maxInt
    ensures d.hasConstraints ==> d.minInt == minInt && d.maxInt == maxInt
  {
    var constrained := t == IntegerType && minInt != maxInt;
    Descriptor(t, c, a, default, constrained, if constrained then minInt else 0, if constrained then maxInt else 0)
  }

  /** The `bool` overload stores the default as 0 or 1. */
  function FlagOption(c: Category, a: Access, default: bool): Descriptor
  {
    Registration(BooleanType, c, a, Number(if default then 1 else 0), 0, 0)
  }

  function StrOption(c: Category, a: Access, default: string): Descriptor
  {
    Registration(StringType, c, a, Str(default), 0, 0)
  }

  function IntOption(c: Category, a: Access, default: int, lo: int, hi: int): Descriptor
  {
    Registration(IntegerType, c, a, Number(default), lo, hi)
  }

  /** The overload whose value argument defaults to null: no value. */
  function NullOption(t: OptionType, c: Category, a: Access): Descriptor
  {
    Registration(t, c, a, Undefined, 0, 0)
  }

  /** The descriptor `initialize_descriptors` registers for an option number this model names. */
  function DefaultDescriptor(option: int): Option<Descriptor>
  {
    if option == TlsVerifyPeer then Some(FlagOption(TlsCategory, Public, false))
    else if option == TlsSniHostname then Some(StrOption(TlsCategory, Public, ""))
    else if option == Keepalive then Some(FlagOption(CoreCategory, Public, false))
    else if option == Nodelay then Some(FlagOption(CoreCategory, Public, false))
    else if option == Timeout then Some(IntOption(CoreCategory, Public, 30000, 1000, 300000))
    else if option == Rcvbuf then Some(IntOption(CoreCategory, Public, 8192, 1024, 1048576))
    else if option == Sndbuf then Some(IntOption(CoreCategory, Public, 8192, 1024, 1048576))
    else if option == AuthToken then Some(StrOption(AuthCategory, Owner, ""))
    else if option == AuthUsername then Some(StrOption(AuthCategory, Owner, ""))
    else if option == AuthPassword then Some(StrOption(AuthCategory, Privileged, ""))
    else if option == HttpHeaders then Some(NullOption(MappingType, HttpCategory, Public))
    else if option == HttpMethod then Some(StrOption(HttpCategory, Public, "GET"))
    else if option == HttpUrl then Some(StrOption(HttpCategory, Public, ""))
    else if option == HttpTimeout then Some(IntOption(HttpCategory, Public, DefaultHttpTimeout, MinHttpTimeout, MaxHttpTimeout))
    else if option == HttpUserAgent then Some(StrOption(HttpCategory, Public, "FluffOS/3.0"))
    else if option == HttpFollowRedirects then Some(FlagOption(HttpCategory, Public, true))
    else if option == HttpMaxRedirects then
      Some(IntOption(HttpCategory, Public, DefaultHttpMaxRedirects, MinHttpMaxRedirects, MaxHttpMaxRedirects))
    else if option == RestRouterConfig then Some(NullOption(MappingType, RestCategory, Owner))
    else if option == RestAddRoute then Some(NullOption(MappingType, RestCategory, Owner))
    else if option == RestOpenapiInfo then Some(NullOption(MappingType, RestCategory, Public))
    else if option == RestJwtSecret then Some(StrOption(RestCategory, Privileged, ""))
    else if option == RestMiddleware then Some(NullOption(ArrayType, RestCategory, Owner))
    else if option == RestCorsConfig then Some(NullOption(MappingType, RestCategory, Public))
    else if option == WsProtocol then Some(StrOption(WebSocketCategory, Public, ""))
    else if option == WsExtensions then Some(NullOption(ArrayType, WebSocketCategory, Public))
    else if option == WsMaxMessageSize then Some(IntOption(WebSocketCategory, Public, 65536, MinWsMessageSize, MaxWsMessageSize))
    else if option == WsPingInterval then Some(IntOption(WebSocketCategory, Public, 30, 0, 0))
    else if option == WsAutoPing then Some(FlagOption(WebSocketCategory, Public, true))
    else if option == MqttBroker then Some(StrOption(MqttCategory, Owner, ""))
    else if option == MqttClientId then Some(StrOption(MqttCategory, Owner, ""))
    else if option == MqttUsername then Some(StrOption(MqttCategory, Owner, ""))
    else if option == MqttPassword then Some(StrOption(MqttCategory, Privileged, ""))
    else if option == MqttKeepAlive then Some(IntOption(MqttCategory, Public, 60, MinMqttKeepAlive, MaxMqttKeepAlive))
    else if option == MqttQos then Some(IntOption(MqttCategory, Public, 0, 0, 2))
    else if option == ExternalCommand then Some(StrOption(ExternalCategory, Privileged, ""))
    else if option == ExternalArgs then Some(NullOption(ArrayType, ExternalCategory, Privileged))
    else if option == ExternalEnv then Some(NullOption(MappingType, ExternalCategory, Privileged))
    else if option == ExternalWorkingDir then Some(StrOption(ExternalCategory, Privileged, "/tmp"))
    else if option == ExternalTimeout then Some(IntOption(ExternalCategory, Public, 30, 1, 3600))
    else if option == ExternalAsync then Some(FlagOption(ExternalCategory, Public, false))
    else if option == DbConnectionString then Some(StrOption(DatabaseCategory, Privileged, ""))
    else if option == DbPoolSize then Some(IntOption(DatabaseCategory, Owner, 10, 1, 100))
    else if option == DbTimeout then Some(IntOption(DatabaseCategory, Public, DefaultDbTimeout, 1, 3600))
    else if option == CacheEnable then Some(FlagOption(CacheCategory, Public, false))
    else if option == CacheTtl then Some(IntOption(CacheCategory, Public, DefaultCacheTtl, MinCacheTtl, MaxCacheTtl))
    else if option == CacheMaxSize then Some(IntOption(CacheCategory, Public, 1048576, 1024, 1073741824))
    else if option == CacheKeyPattern then Some(StrOption(CacheCategory, Public, ""))
    else if option == TlsCipherSuites then Some(StrOption(TlsCategory, Privileged, ""))
    else if option == TlsCertificateFile then Some(StrOption(TlsCategory, System, ""))
    else if option == TlsPrivateKeyFile then Some(StrOption(TlsCategory, System, ""))
    else if option == TlsVerifyDepth then Some(IntOption(TlsCategory, Privileged, 9, 1, 20))
    else if option == SocketMode then Some(IntOption(InternalCategory, System, 0, 0, 0))
    else if option == RestMode then Some(FlagOption(InternalCategory, System, false))
    else if option == WsMode then Some(FlagOption(InternalCategory, System, false))
    else if option == MqttMode then Some(FlagOption(InternalCategory, System, false))
    else if option == ExternalMode then Some(FlagOption(InternalCategory, System, false))
    else None
  }

  /** The table as a map. */
  function DefaultDescriptors(): (t: map<int, Descriptor>)
    ensures forall o :: o in t <==> DefaultDescriptor(o).Some?
    ensures forall o :: o in t ==> t[o] == DefaultDescriptor(o).value
  {
    map o | 0 <= o <= ExternalMode && DefaultDescriptor(o).Some? :: DefaultDescriptor(o).value
  }

  /** A descriptor `register_option` can produce: only integers carry bounds. */
  predicate WellFormed(d: Descriptor)
  {
    d.hasConstraints ==> d.valueType == IntegerType
  }

  /** Every registered descriptor is well formed, and integer bounds come only with distinct limits. */
  lemma DefaultDescriptorsWellFormed(o: int)
    ensures DefaultDescriptor(o).Some? ==> WellFormed(DefaultDescriptor(o).value)
    ensures DefaultDescriptor(o).Some? && DefaultDescriptor(o).value.hasConstraints
            ==> DefaultDescriptor(o).value.minInt < DefaultDescriptor(o).value.maxInt
  {
  }

  // ---------------------------------------------------------------------------
  // Lookups with their fallbacks
  // ---------------------------------------------------------------------------

  function OptionType(descs: map<int, Descriptor>, option: int): (t: OptionType)
    ensures option !in descs ==> t == MixedType
  {
    if option in descs then descs[option].valueType else MixedType
  }

  function OptionCategory(descs: map<int, Descriptor>, option: int): (c: Category)
    ensures option !in descs ==> c == CoreCategory
  {
    if option in descs then descs[option].category else CoreCategory
  }

  function AccessLevel(descs: map<int, Descriptor>, option: int): (a: Access)
    ensures option !in descs ==> a == Public
  {
    if option in descs then descs[option].access else Public
  }

  /** `get_default_value`: the registered default, or no value. */
  function DefaultValue(descs: map<int, Descriptor>, option: int): (v: Value)
    ensures option !in descs ==> v == Undefined
  {
    if option in descs then descs[option].defaultValue else Undefined
  }

  // ---------------------------------------------------------------------------
  // Callers and access
  // ---------------------------------------------------------------------------

  /** The object calling in: none (the driver itself) or an object that may own the socket. */
  datatype Caller = Driver | Object(ownsSocket: bool)

  /**
   * `get_caller_access_level`: no caller is SYSTEM, the socket's owner is
   * OWNER, anyone else PUBLIC (`check_system_permission` grants nothing to
   * an object).
   */
  function CallerAccess(caller: Caller): (a: Access)
    ensures a == System <==> caller == Driver
    ensures a == Owner <==> caller == Object(true)
    ensures a == Public <==> caller == Object(false)
  {
    match caller
    case Driver => System
    case Object(owns) => if owns then Owner else Public
  }

  /** `has_access_permission`: the caller's level is at least the option's. */
  predicate HasAccessPermission(descs: map<int, Descriptor>, option: int, caller: Caller)
  {
    CallerAccess(caller).Level() >= AccessLevel(descs, option).Level()
  }

  /** Every option except a READONLY one is open to the driver; public options are open to everyone. */
  lemma AccessOrder(descs: map<int, Descriptor>, option: int, caller: Caller)
    ensures AccessLevel(descs, option) != ReadOnly ==> HasAccessPermission(descs, option, Driver)
    ensures AccessLevel(descs, option) == ReadOnly ==> !HasAccessPermission(descs, option, caller)
    ensures AccessLevel(descs, option) == Public ==> HasAccessPermission(descs, option, caller)
    ensures HasAccessPermission(descs, option, Object(false)) ==> HasAccessPermission(descs, option, Object(true))
  {
  }

  // ---------------------------------------------------------------------------
  // Types, validation and conversion
  // ---------------------------------------------------------------------------

  /** `svalue_matches_type`. */
  predicate MatchesType(v: Value, t: OptionType)
  {
    match t
    case IntegerType => v.Number?
    case StringType => v.Str?
    case BooleanType => v.Number?
    case FloatType => v.Real? || v.Number?
    case MappingType => v.Mapping?
    case ArrayType => v.Array?
    case MixedType => true
  }

  /**
   * `validate_option_value`: `None` when the value is acceptable, otherwise
   * the message left in `last_error_`.  String and float descriptors are never
   * constrained, since `register_option` records bounds only for integers.
   */
  function ValidateOptionValue(descs: map<int, Descriptor>, option: int, v: Value): (err: Option<string>)
    ensures err.None? ==> option in descs && MatchesType(v, descs[option].valueType)
    ensures err.None? && option in descs && descs[option].valueType == IntegerType && descs[option].hasConstraints
            ==> v.Number? && descs[option].minInt <= v.n <= descs[option].maxInt
    ensures err.None? && option in descs && descs[option].valueType in {MappingType, ArrayType} ==> v.present
    ensures option in descs && descs[option].valueType == MixedType ==> err.None?
    ensures option !in descs ==> err == Some("Unknown option: " + IntToString(option))
  {
    var o := IntToString(option);
    if option !in descs then Some("Unknown option: " + o)
    else
      var d := descs[option];
      match d.valueType
      case IntegerType =>
        if !v.Number? then Some("Expected integer value for option " + o)
        else if d.hasConstraints && (v.n < d.minInt || v.n > d.maxInt) then
          Some("Value " + IntToString(v.n) + " is outside valid range [" + IntToString(d.minInt) + ", "
            + IntToString(d.maxInt) + "] for option " + o)
        else None
      case StringType => if !v.Str? then Some("Expected string value for option " + o) else None
      case BooleanType => if !v.Number? then Some("Expected boolean value for option " + o) else None
      case FloatType => if !v.Real? && !v.Number? then Some("Expected numeric value for option " + o) else None
      case MappingType =>
        if !v.Mapping? then Some("Expected mapping value for option " + o)
        else if !v.present then Some("Null mapping value for option " + o)
        else None
      case ArrayType =>
        if !v.Array? then Some("Expected array value for option " + o)
        else if !v.present then Some("Null array value for option " + o)
        else None
      case MixedType => None
  }

  /** Library conversions outside this model: `atof` and `%g` formatting. */
  datatype Conversions = Conversions(atof: string -> real, formatReal: real -> string)

  /** A C cast from floating point to integer drops the fraction. */
  function Truncate(r: real): (n: int)
    ensures r >= 0.0 ==> n as real <= r < n as real + 1.0
    ensures r < 0.0 ==> n as real - 1.0 < r <= n as real
  {
    if r >= 0.0 then r.Floor else -((-r).Floor)
  }

  /** `atoi`: leading white space, an optional sign, then digits; 0 when there are none. */
  function Atoi(s: string): int
  {
    var t := TrimStart(s);
    if t != [] && t[0] == '-' then -(DigitsValue(LeadingDigits(t[1..]) ) as int)
    else if t != [] && t[0] == '+' then DigitsValue(LeadingDigits(t[1..]))
    else DigitsValue(LeadingDigits(t))
  }

  /** `strcasecmp(s, w) == 0`. */
  predicate SameIgnoringCase(s: string, w: string)
  {
    Lower(s) == Lower(w)
  }

  /** `convert_to_type`. */
  function ConvertToType(v: Value, t: OptionType, conv: Conversions): (r: Value)
    ensures t == BooleanType && (v.Number? || v.Str?) ==> r.Number? && (r.n == 0 || r.n == 1)
    ensures t == BooleanType && v.Number? ==> (r.n == 1 <==> v.n != 0)
    ensures t == IntegerType && v.Number? ==> r == v
    ensures t == FloatType && v.Number? ==> r == Real(v.n as real)
    ensures t == StringType && v.Str? ==> r == v
    ensures t in {MappingType, ArrayType, MixedType} ==> r == v
    ensures !(v.Number? || v.Str? || v.Real?) ==> r == v
  {
    match t
    case BooleanType =>
      if v.Number? then Number(if v.n != 0 then 1 else 0)
      else if v.Str? then
        Number(if SameIgnoringCase(v.s, "true") || SameIgnoringCase(v.s, "yes") || SameIgnoringCase(v.s, "1") then 1 else 0)
      else v
    case IntegerType =>
      if v.Real? then Number(Truncate(v.r))
      else if v.Str? then Number(Atoi(v.s))
      else v
    case FloatType =>
      if v.Number? then Real(v.n as real)
      else if v.Str? then Real(conv.atof(v.s))
      else v
    case StringType =>
      if v.Number? then Str(IntToString(v.n))
      else if v.Real? then Str(conv.formatReal(v.r))
      else v
    case _ => v
  }

  /** What a successful set stores always has the option's type, and a flag is 0 or 1. */
  lemma StoredValueTyped(descs: map<int, Descriptor>, option: int, v: Value, conv: Conversions)
    requires ValidateOptionValue(descs, option, v).None?
    ensures var t := descs[option].valueType; var r := ConvertToType(v, t, conv);
      MatchesType(r, t)
      && (t == BooleanType ==> r.Number? && (r.n == 0 || r.n == 1))
      && (t == IntegerType ==> r == v)
  {
  }

  // ---------------------------------------------------------------------------
  // Protocol modes
  // ---------------------------------------------------------------------------

  /** The mode flag a setting turns on, if any (`update_protocol_modes`). */
  function ModeFor(option: int): (m: Option<int>)
    ensures m.Some? ==> m.value in {RestMode, WsMode, MqttMode, ExternalMode}
    ensures m.Some? <==> option in {RestRouterConfig, RestAddRoute, WsProtocol, WsExtensions, MqttBroker, MqttClientId, ExternalCommand}
  {
    if option == RestRouterConfig || option == RestAddRoute then Some(RestMode)
    else if option == WsProtocol || option == WsExtensions then Some(WsMode)
    else if option == MqttBroker || option == MqttClientId then Some(MqttMode)
    else if option == ExternalCommand then Some(ExternalMode)
    else None
  }

  /** `update_protocol_modes` with `set_internal_mode(mode, true)`. */
  function ModesUpdated(options: map<int, Value>, option: int): (r: map<int, Value>)
    ensures ModeFor(option).Some? ==> r == options[ModeFor(option).value := Number(1)]
    ensures ModeFor(option).None? ==> r == options
  {
    match ModeFor(option)
    case Some(mode) => options[mode := Number(1)]
    case None => options
  }

  /** `is_http_mode`, `is_rest_mode`, ...: the flag is set to a non-zero number. */
  predicate ModeOn(options: map<int, Value>, mode: int)
  {
    mode in options && options[mode].Number? && options[mode].n != 0
  }

  /** `get_socket_mode_from_options`: the stored number, or -1. */
  function SocketModeOf(options: map<int, Value>): (m: int)
    ensures SocketMode in options && options[SocketMode].Number? ==> m == options[SocketMode].n
    ensures !(SocketMode in options && options[SocketMode].Number?) ==> m == -1
  {
    if SocketMode in options && options[SocketMode].Number? then options[SocketMode].n else -1
  }

  // ---------------------------------------------------------------------------
  // Set, get, remove
  // ---------------------------------------------------------------------------

  /** The outcome of `set_option`: success, the new store and `last_error_` (unchanged on success). */
  datatype SetOutcome = SetOutcome(ok: bool, options: map<int, Value>, error: Option<string>)

  /**
   * `set_option`: an unknown option, a null value (`None`), a caller below
   * the option's level or a rejected value fails and leaves the store as it
   * was; otherwise the converted value is stored and the protocol mode flag
   * the option implies is switched on.
   */
  function OptionSet(descs: map<int, Descriptor>, options: map<int, Value>, option: int, value: Option<Value>,
                     caller: Caller, conv: Conversions): (r: SetOutcome)
    ensures r.ok <==> (option in descs && value.Some? && HasAccessPermission(descs, option, caller)
                       && ValidateOptionValue(descs, option, value.value).None?)
    ensures !r.ok ==> r.options == options && r.error.Some?
    ensures r.ok ==>
              (r.error.None?
               && r.options == ModesUpdated(options[option := ConvertToType(value.value, descs[option].valueType, conv)], option))
  {
    var o := IntToString(option);
    if option !in descs then SetOutcome(false, options, Some("Invalid socket option: " + o))
    else if value.None? then SetOutcome(false, options, Some("Null value provided for option " + o))
    else if !HasAccessPermission(descs, option, caller) then SetOutcome(false, options, Some("Access denied for option " + o))
    else match ValidateOptionValue(descs, option, value.value)
      case Some(e) => SetOutcome(false, options, Some(e))
      case None =>
        var stored := ConvertToType(value.value, descs[option].valueType, conv);
        SetOutcome(true, ModesUpdated(options[option := stored], option), None)
  }

  /** A successful set stores a typed, in-range value and turns on the option's protocol mode. */
  lemma SetOptionMeaning(descs: map<int, Descriptor>, options: map<int, Value>, option: int, value: Option<Value>,
                         caller: Caller, conv: Conversions)
    requires OptionSet(descs, options, option, value, caller, conv).ok
    ensures var r := OptionSet(descs, options, option, value, caller, conv).options;
      var d := descs[option];
      option in r && MatchesType(r[option], d.valueType)
      && (d.valueType == BooleanType ==> r[option].n == 0 || r[option].n == 1)
      && (d.valueType == IntegerType && d.hasConstraints ==> d.minInt <= r[option].n <= d.maxInt)
      && (ModeFor(option).Some? ==> ModeOn(r, ModeFor(option).value))
      && (forall k :: k in options && k != option && Some(k) != ModeFor(option) ==> k in r && r[k] == options[k])
  {
    var v := value.value;
    StoredValueTyped(descs, option, v, conv);
    if ModeFor(option).Some? {
      assert ModeFor(option).value != option;
    }
  }

  /** A WebSocket protocol that is accepted puts the socket in WebSocket mode. */
  lemma ProtocolSetsWebSocketMode(options: map<int, Value>, name: string, caller: Caller, conv: Conversions)
    ensures var r := OptionSet(DefaultDescriptors(), options, WsProtocol, Some(Str(name)), caller, conv);
      r.ok && ModeOn(r.options, WsMode) && r.options[WsProtocol] == Str(name)
  {
    var descs := DefaultDescriptors();
    assert WsProtocol in descs && descs[WsProtocol].access == Public && descs[WsProtocol].valueType == StringType;
  }

  /** A quality of service outside 0..2 is refused and nothing is stored. */
  lemma QosOutOfRangeRefused(options: map<int, Value>, qos: int, caller: Caller, conv: Conversions)
    requires qos < 0 || qos > 2
    ensures var r := OptionSet(DefaultDescriptors(), options, MqttQos, Some(Number(qos)), caller, conv);
      !r.ok && r.options == options
  {
  }

  /** The socket's owner may set the database pool size exactly when it lies in 1..100. */
  lemma PoolSizeSet(options: map<int, Value>, size: int, conv: Conversions)
    ensures var r := OptionSet(DefaultDescriptors(), options, DbPoolSize, Some(Number(size)), Object(true), conv);
      (r.ok <==> 1 <= size <= 100) && (r.ok ==> r.options == options[DbPoolSize := Number(size)])
  {
    var descs := DefaultDescriptors();
    assert DbPoolSize in descs && descs[DbPoolSize] == IntOption(DatabaseCategory, Owner, 10, 1, 100);
  }

  /** The TLS certificate and key files are open to the driver only, never to an object. */
  lemma TlsFilesDriverOnly(options: map<int, Value>, path: string, owns: bool, conv: Conversions)
    ensures !OptionSet(DefaultDescriptors(), options, TlsCertificateFile, Some(Str(path)), Object(owns), conv).ok
    ensures !OptionSet(DefaultDescriptors(), options, TlsPrivateKeyFile, Some(Str(path)), Object(owns), conv).ok
    ensures OptionSet(DefaultDescriptors(), options, TlsCertificateFile, Some(Str(path)), Driver, conv).ok
  {
    var descs := DefaultDescriptors();
    assert descs[TlsCertificateFile] == StrOption(TlsCategory, System, "");
    assert descs[TlsPrivateKeyFile] == StrOption(TlsCategory, System, "");
    assert !HasAccessPermission(descs, TlsCertificateFile, Object(owns));
    assert !HasAccessPermission(descs, TlsPrivateKeyFile, Object(owns));
    assert HasAccessPermission(descs, TlsCertificateFile, Driver);
    assert ValidateOptionValue(descs, TlsCertificateFile, Str(path)).None?;
  }

  /** `get_option`: the stored value, else the default; fails for an unknown option or a caller without access. */
  function OptionGot(descs: map<int, Descriptor>, options: map<int, Value>, option: int, caller: Caller): (r: Result<Value, string>)
    ensures r.Ok? <==> option in descs && HasAccessPermission(descs, option, caller)
    ensures r.Ok? && option in options ==> r.value == options[option]
    ensures r.Ok? && option !in options ==> r.value == descs[option].defaultValue
  {
    var o := IntToString(option);
    if option !in descs then Err("Invalid socket option: " + o)
    else if !HasAccessPermission(descs, option, caller) then Err("Access denied for option " + o)
    else if option in options then Ok(options[option])
    else Ok(DefaultValue(descs, option))
  }

  /** Reading back a value just set gives the stored, converted value. */
  lemma GetAfterSet(descs: map<int, Descriptor>, options: map<int, Value>, option: int, v: Value,
                    caller: Caller, conv: Conversions)
    requires OptionSet(descs, options, option, Some(v), caller, conv).ok
    ensures OptionGot(descs, OptionSet(descs, options, option, Some(v), caller, conv).options, option, caller)
            == Ok(ConvertToType(v, descs[option].valueType, conv))
  {
    SetOptionMeaning(descs, options, option, Some(v), caller, conv);
  }

  /** `remove_option`: true and the value gone only when it was set and the caller may change it. */
  function OptionRemoved(descs: map<int, Descriptor>, options: map<int, Value>, option: int, caller: Caller)
    : (r: (bool, map<int, Value>))
    ensures r.0 <==> option in descs && HasAccessPermission(descs, option, caller) && option in options
    ensures r.0 ==> r.1 == options - {option}
    ensures !r.0 ==> r.1 == options
  {
    if option in descs && HasAccessPermission(descs, option, caller) && option in options then (true, options - {option})
    else (false, options)
  }

  /** After a removal, reading the option gives its default again. */
  lemma GetAfterRemove(descs: map<int, Descriptor>, options: map<int, Value>, option: int, caller: Caller)
    requires OptionRemoved(descs, options, option, caller).0
    ensures OptionGot(descs, OptionRemoved(descs, options, option, caller).1, option, caller) == Ok(descs[option].defaultValue)
  {
  }

  // ---------------------------------------------------------------------------
  // Setting from a mapping
  // ---------------------------------------------------------------------------

  /**
   * The first pass of `set_options_from_mapping`: `None` when every key is a
   * number with an acceptable value.  A key is read into an `int`, so only its
   * low 32 bits name the option.
   */
  function MappingChecked(descs: map<int, Descriptor>, entries: seq<(Value, Value)>): (err: Option<string>)
    ensures err.None? <==> forall k :: 0 <= k < |entries| ==>
              entries[k].0.Number? && ValidateOptionValue(descs, Int32Of(entries[k].0.n), entries[k].1).None?
  {
    if entries == [] then None
    else if !entries[0].0.Number? then Some("Option keys must be integers")
    else match ValidateOptionValue(descs, Int32Of(entries[0].0.n), entries[0].1)
      case Some(e) => Some(e)
      case None =>
        var rest := MappingChecked(descs, entries[1..]);
        assert forall k :: 1 <= k < |entries| ==> entries[k] == entries[1..][k - 1];
        rest
  }

  /** The second pass: `set_option` on each entry in turn, stopping at the first failure. */
  function MappingApplied(descs: map<int, Descriptor>, options: map<int, Value>, entries: seq<(Value, Value)>,
                          caller: Caller, conv: Conversions): (r: SetOutcome)
    requires forall k :: 0 <= k < |entries| ==> entries[k].0.Number?
    decreases |entries|
  {
    if entries == [] then SetOutcome(true, options, None)
    else
      var first := OptionSet(descs, options, Int32Of(entries[0].0.n), Some(entries[0].1), caller, conv);
      if !first.ok then first
      else MappingApplied(descs, first.options, entries[1..], caller, conv)
  }

  /**
   * `set_options_from_mapping`, visiting the mapping's entries in the order
   * given: nothing changes when a key or value is rejected by the first pass.
   */
  function OptionsFromMapping(descs: map<int, Descriptor>, options: map<int, Value>, entries: Option<seq<(Value, Value)>>,
                              caller: Caller, conv: Conversions): (r: SetOutcome)
    ensures entries.None? ==> !r.ok && r.options == options
    ensures entries.Some? && MappingChecked(descs, entries.value).Some? ==> !r.ok && r.options == options
  {
    if entries.None? then SetOutcome(false, options, Some("Null mapping provided"))
    else match MappingChecked(descs, entries.value)
      case Some(e) => SetOutcome(false, options, Some(e))
      case None => MappingApplied(descs, options, entries.value, caller, conv)
  }

  /**
   * The first pass does not check access, so a caller refused on a later
   * entry leaves the earlier entries set although the whole call fails.
   */
  lemma DeniedLaterEntryKeepsEarlier(descs: map<int, Descriptor>, options: map<int, Value>,
                                     a: int, va: Value, b: int, vb: Value, caller: Caller, conv: Conversions)
    requires -0x8000_0000 <= a < 0x8000_0000 && -0x8000_0000 <= b < 0x8000_0000
    requires MappingChecked(descs, [(Number(a), va), (Number(b), vb)]).None?
    requires HasAccessPermission(descs, a, caller) && !HasAccessPermission(descs, b, caller)
    ensures var r := OptionsFromMapping(descs, options, Some([(Number(a), va), (Number(b), vb)]), caller, conv);
      !r.ok && a in r.options && r.options[a] == ConvertToType(va, descs[a].valueType, conv)
  {
    var entries := [(Number(a), va), (Number(b), vb)];
    var first := OptionSet(descs, options, a, Some(va), caller, conv);
    assert first.ok;
    SetOptionMeaning(descs, options, a, Some(va), caller, conv);
    var second := OptionSet(descs, first.options, b, Some(vb), caller, conv);
    assert !second.ok && second.options == first.options;
    assert entries[1..] == [(Number(b), vb)];
    assert [(Number(b), vb)][1..] == [];
    assert MappingApplied(descs, first.options, [(Number(b), vb)], caller, conv) == second;
    assert MappingApplied(descs, options, entries, caller, conv) == second;
  }

  /** The option store of one socket. */
  class OptionManager {
    const socketId: int
    var descriptors: map<int, Descriptor>
    var options: map<int, Value>
    var lastError: string

    constructor(socketId: int)
      ensures this.socketId == socketId && descriptors == DefaultDescriptors() && options == map[] && lastError == ""
    {
      this.socketId := socketId;
      descriptors := DefaultDescriptors();
      options := map[];
      lastError := "";
    }

    method RegisterOption(id: int, t: OptionType, c: Category, a: Access, default: Value, minInt: int, maxInt: int)
      modifies this
      ensures descriptors == old(descriptors)[id := Registration(t, c, a, default, minInt, maxInt)]
      ensures options == old(options) && lastError == old(lastError)
    {
      descriptors := descriptors[id := Registration(t, c, a, default, minInt, maxInt)];
    }

    method SetOption(option: int, value: Option<Value>, caller: Caller, conv: Conversions) returns (ok: bool)
      modifies this
      ensures var r := OptionSet(old(descriptors), old(options), option, value, caller, conv);
        ok == r.ok && options == r.options && lastError == r.error.GetOr(old(lastError))
      ensures descriptors == old(descriptors)
    {
      var r := OptionSet(descriptors, options, option, value, caller, conv);
      ok := r.ok;
      options := r.options;
      if r.error.Some? {
        lastError := r.error.value;
      }
    }

    method GetOption(option: int, caller: Caller) returns (ok: bool, result: Value)
      modifies this
      ensures var r := OptionGot(descriptors, options, option, caller);
        ok == r.Ok? && (ok ==> result == r.value) && (!ok ==> lastError == r.error)
      ensures ok ==> lastError == old(lastError)
      ensures descriptors == old(descriptors) && options == old(options)
    {
      var r := OptionGot(descriptors, options, option, caller);
      match r
      case Ok(v) =>
        ok, result := true, v;
      case Err(e) =>
        ok, result := false, Undefined;
        lastError := e;
    }

    predicate HasOption(option: int)
      reads this
    {
      option in options
    }

    method RemoveOption(option: int, caller: Caller) returns (ok: bool)
      modifies this
      ensures (ok, options) == OptionRemoved(old(descriptors), old(options), option, caller)
      ensures descriptors == old(descriptors)
    {
      var r := OptionRemoved(descriptors, options, option, caller);
      if option !in descriptors {
        lastError := "Invalid socket option: " + IntToString(option);
      } else if !HasAccessPermission(descriptors, option, caller) {
        lastError := "Access denied for option " + IntToString(option);
      }
      ok, options := r.0, r.1;
    }

    method ClearAllOptions()
      modifies this
      ensures options == map[] && descriptors == old(descriptors) && lastError == old(lastError)
    {
      options := map[];
    }

    /** `set_options_from_mapping`; `entries` lists the mapping's nodes in the order the table is walked. */
    method SetOptionsFromMapping(entries: Option<seq<(Value, Value)>>, caller: Caller, conv: Conversions) returns (ok: bool)
      modifies this
      ensures var r := OptionsFromMapping(old(descriptors), old(options), entries, caller, conv);
        ok == r.ok && options == r.options
      ensures descriptors == old(descriptors)
    {
      if entries.None? {
        lastError := "Null mapping provided";
        return false;
      }
      var es := entries.value;
      var i := 0;
      while i < |es|
        invariant 0 <= i <= |es| && options == old(options) && descriptors == old(descriptors)
        invariant MappingChecked(descriptors, es) == MappingChecked(descriptors, es[i..])
      {
        assert es[i..][1..] == es[i + 1..];
        if !es[i].0.Number? {
          lastError := "Option keys must be integers";
          return false;
        }
        var option := Int32Of(es[i].0.n);
        var err := ValidateOptionValue(descriptors, option, es[i].1);
        if err.Some? {
          lastError := err.value;
          return false;
        }
        i := i + 1;
      }
      i := 0;
      while i < |es|
        invariant 0 <= i <= |es| && descriptors == old(descriptors)
        invariant MappingApplied(descriptors, options, es[i..], caller, conv)
                  == MappingApplied(descriptors, old(options), es, caller, conv)
      {
        assert es[i..][1..] == es[i + 1..];
        var applied := SetOption(Int32Of(es[i].0.n), Some(es[i].1), caller, conv);
        if !applied {
          return false;
        }
        i := i + 1;
      }
      return true;
    }

    function GetSocketModeFromOptions(): int
      reads this
    {
      SocketModeOf(options)
    }

    predicate IsModeOn(mode: int)
      reads this
    {
      ModeOn(options, mode)
    }
  }
}
