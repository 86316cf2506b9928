/**
 * Option numbers, categories, value types and access levels shared by the
 * socket option validator and manager.
 *
 * The validator and manager name the core, HTTP and cache options with the
 * aliases `SOCKET_OPT_*`, `HTTP_*` and `CACHE_*`; their numbers here are those
 * of the matching `SO_*` enumerators, which is how the validation tests refer
 * to the same options.
 */
module SocketOptions {

  // Core options (0-99).
  const TlsVerifyPeer: int := 0
  const TlsSniHostname: int := 1
  const Keepalive: int := 2
  const Nodelay: int := 3
  const Rcvbuf: int := 5
  const Sndbuf: int := 6
  const Timeout: int := 7
  const AuthToken: int := 20
  const AuthUsername: int := 21
  const AuthPassword: int := 22
  const BufferSize: int := 43
  const MaxConnections: int := 44

  // HTTP options (100-109).
  const HttpHeaders: int := 100
  const HttpMethod: int := 101
  const HttpUrl: int := 102
  const HttpTimeout: int := 104
  const HttpUserAgent: int := 105
  const HttpFollowRedirects: int := 106
  const HttpMaxRedirects: int := 107
  const HttpConnectTimeout: int := 108
  const HttpReadTimeout: int := 109

  // REST options (110-119).
  const RestRouterConfig: int := 110
  const RestAddRoute: int := 111
  const RestOpenapiInfo: int := 112
  const RestJwtSecret: int := 113
  const RestMiddleware: int := 116
  const RestCorsConfig: int := 118

  // WebSocket options (120-129).
  const WsProtocol: int := 120
  const WsExtensions: int := 121
  const WsMaxMessageSize: int := 123
  const WsPingInterval: int := 124
  const WsSubprotocol: int := 127
  const WsAutoPing: int := 129

  // MQTT options (130-139).
  const MqttBroker: int := 130
  const MqttClientId: int := 131
  const MqttUsername: int := 132
  const MqttPassword: int := 133
  const MqttKeepAlive: int := 134
  const MqttQos: int := 135

  // External process options (140-159).
  const ExternalCommand: int := 140
  const ExternalArgs: int := 141
  const ExternalEnv: int := 142
  const ExternalWorkingDir: int := 144
  const ExternalTimeout: int := 147
  const ExternalAsync: int := 149

  // Database options (160-179).
  const DbConnectionString: int := 160
  const DbPoolSize: int := 161
  const DbTimeout: int := 162

  // Cache options (200-219).
  const CacheEnable: int := 200
  const CacheTtl: int := 201
  const CacheMaxSize: int := 202
  const CacheKeyPattern: int := 203

  // TLS options (320-339).
  const TlsCipherSuites: int := 320
  const TlsCertificateFile: int := 322
  const TlsPrivateKeyFile: int := 323
  const TlsVerifyDepth: int := 325

  // Internal mode flags (1000+).
  const SocketMode: int := 1000
  const HttpServerMode: int := 1001
  const HttpClientMode: int := 1002
  const RestMode: int := 1003
  const WsMode: int := 1004
  const MqttMode: int := 1005
  const ExternalMode: int := 1006

  // Socket modes (`socket_mode_extended`).
  const SocketStreamTls: int := 5
  const SocketStreamTlsBinary: int := 6
  const HttpServer: int := 10
  const HttpClient: int := 11
  const HttpsServer: int := 12
  const HttpsClient: int := 13
  const RestServer: int := 14
  const RestClient: int := 15
  const WebsocketServer: int := 16
  const WebsocketClient: int := 17
  const WebsocketTlsServer: int := 18
  const WebsocketTlsClient: int := 19
  const MqttClient: int := 20
  const MqttTlsClient: int := 21
  const ExternalProcess: int := 22
  const ExternalCommandMode: int := 23

  // Limits used by the validators.
  const MinWsMessageSize: int := 128
  const MaxWsMessageSize: int := 16777216
  const MinMqttKeepAlive: int := 10
  const MaxMqttKeepAlive: int := 3600
  const MinCacheTtl: int := 1
  const MaxCacheTtl: int := 86400
  const DefaultCacheTtl: int := 300
  const MinHttpTimeout: int := 1000
  const MaxHttpTimeout: int := 300000
  const DefaultHttpTimeout: int := 30000
  const MinHttpMaxRedirects: int := 0
  const MaxHttpMaxRedirects: int := 20
  const DefaultHttpMaxRedirects: int := 5
  const DefaultDbTimeout: int := 30

  datatype Category = CoreCategory | AuthCategory | HttpCategory | RestCategory | WebSocketCategory
                    | MqttCategory | ExternalCategory | DatabaseCategory | CacheCategory
                    | ApacheCategory | TlsCategory | MonitoringCategory | InternalCategory

  datatype OptionType = IntegerType | StringType | BooleanType | FloatType | MappingType | ArrayType | MixedType

  /** `socket_option_access`; access checks compare the enumerator numbers. */
  datatype Access = Public | Owner | Privileged | System | ReadOnly
  {
    function Level(): nat
    {
      match this
      case Public => 0
      case Owner => 1
      case Privileged => 2
      case System => 3
      case ReadOnly => 4
    }

    function Name(): string
    {
      match this
      case Public => "PUBLIC"
      case Owner => "OWNER"
      case Privileged => "PRIVILEGED"
      case System => "SYSTEM"
      case ReadOnly => "READONLY"
    }
  }

  /**
   * The C++ conversion of an LPC number (64 bits) to a 32-bit `int`: the
   * value modulo 2^32, read as two's complement.
   */
  function Int32Of(n: int): (r: int)
    ensures -0x8000_0000 <= r < 0x8000_0000
    ensures (n - r) % 0x1_0000_0000 == 0
    ensures -0x8000_0000 <= n < 0x8000_0000 ==> r == n
  {
    var low := n % 0x1_0000_0000;
    if low < 0x8000_0000 then low else low - 0x1_0000_0000
  }

  /** A FluffOS `svalue_t` as the option code sees it. */
  datatype Value =
    | Number(n: int)
    | Str(s: string)
    | Real(r: real)
    | Mapping(present: bool)
    | Array(present: bool)
    | Undefined
}
