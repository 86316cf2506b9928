/**
 * The MQTT client of the zmqtt package: a connection state machine over a
 * configuration, a subscription table, an outgoing queue and the publishes
 * awaiting acknowledgement, numbered by a 16-bit packet identifier.  The
 * websocket library is reduced to whether a connection handle is attached
 * and to the outcome of each send, which are inputs.
 */
module MqttClient {
  import opened Wrappers
  import MqttMessage

  const MaxClientIdLength: nat := 23
  const DefaultPort: int := 1883
  const DefaultKeepAlive: int := 60

  datatype ClientState = Disconnected | Connecting | Connected | Subscribing | Publishing | Disconnecting | ErrorState
  {
    /** The numbering of `mqtt_client_state`. */
    function Code(): (n: nat)
      ensures n <= 6
      ensures n == 0 <==> this == Disconnected
    {
      match this
      case Disconnected => 0
      case Connecting => 1
      case Connected => 2
      case Subscribing => 3
      case Publishing => 4
      case Disconnecting => 5
      case ErrorState => 6
    }
  }

  datatype Will = Will(topic: string, message: string, qos: int, retain: bool)

  datatype Config = Config(brokerHost: string, brokerPort: int, clientId: string, username: string,
                           password: string, keepAlive: int, cleanSession: bool, useTls: bool, will: Will)

  const NoWill := Will("", "", 0, false)

  /** The default `mqtt_connection_config`. */
  function DefaultConfig(): (c: Config)
    ensures c.brokerHost == [] && c.clientId == [] && c.will == NoWill
    ensures c.brokerPort == 1883 && c.keepAlive == 60 && c.cleanSession && !c.useTls
  {
    Config("", DefaultPort, "", "", "", DefaultKeepAlive, true, false, NoWill)
  }

  // ---------------------------------------------------------------------------
  // Configuration checks
  // ---------------------------------------------------------------------------

  /** `validate_client_config`. */
  predicate ValidConfig(c: Config)
  {
    c.brokerHost != [] && 0 < c.brokerPort <= 65535 && |c.clientId| <= MaxClientIdLength
    && 0 <= c.keepAlive <= 65535
  }

  /** The error `validate_config` records: the first rule the configuration breaks. */
  function ConfigError(c: Config): (e: Option<string>)
    ensures e.None? <==> ValidConfig(c)
    ensures c.brokerHost == [] ==> e == Some("Broker host not specified")
    ensures c.brokerHost != [] && !(0 < c.brokerPort <= 65535) ==> e == Some("Invalid broker port")
    ensures c.brokerHost != [] && 0 < c.brokerPort <= 65535 && |c.clientId| > MaxClientIdLength ==>
      e == Some("Client ID too long")
  {
    if c.brokerHost == [] then Some("Broker host not specified")
    else if c.brokerPort <= 0 || c.brokerPort > 65535 then Some("Invalid broker port")
    else if |c.clientId| > MaxClientIdLength then Some("Client ID too long")
    else if c.keepAlive < 0 || c.keepAlive > 65535 then Some("Invalid keep-alive interval")
    else None
  }

  /** `mqtt::validate_qos_level`: the library offers QoS 0 and 1 only. */
  predicate ValidQosLevel(qos: int)
  {
    0 <= qos <= 1
  }

  /** QoS 2, which the message layer accepts, is refused by the client. */
  lemma QosTwoRefused()
    ensures !ValidQosLevel(2) && ValidQosLevel(1) && ValidQosLevel(0) && !ValidQosLevel(-1)
  {
  }

  /** The configuration `connect` validates: the host is replaced, the port and id only when given. */
  function ConnectConfig(c: Config, host: string, port: int, clientId: string, generated: string): (r: Config)
    ensures r.brokerHost == host
    ensures port > 0 ==> r.brokerPort == port
    ensures port <= 0 ==> r.brokerPort == c.brokerPort
    ensures clientId != [] ==> r.clientId == clientId
    ensures clientId == [] && c.clientId != [] ==> r.clientId == c.clientId
    ensures clientId == [] && c.clientId == [] ==> r.clientId == generated
    ensures r.will == c.will && r.keepAlive == c.keepAlive && r.username == c.username
    ensures r.password == c.password && r.cleanSession == c.cleanSession && r.useTls == c.useTls
  {
    var withPort := if port > 0 then c.(brokerHost := host, brokerPort := port) else c.(brokerHost := host);
    if clientId != [] then withPort.(clientId := clientId)
    else if c.clientId == [] then withPort.(clientId := generated)
    else withPort
  }

  /** A hexadecimal digit, lower case as `std::hex` writes it. */
  function HexDigit(d: nat): (c: char)
    requires d < 16
    ensures ('0' <= c <= '9') || ('a' <= c <= 'f')
  {
    if d < 10 then '0' + d as char else 'a' + (d - 10) as char
  }

  function HexDigits(ds: seq<nat>): (s: string)
    requires forall i :: 0 <= i < |ds| ==> ds[i] < 16
    ensures |s| == |ds|
  {
    if ds == [] then [] else [HexDigit(ds[0])] + HexDigits(ds[1..])
  }

  /** `generate_random_client_id` as written: "fluffos_" and sixteen random hex digits. */
  function GeneratedClientIdAsWritten(ds: seq<nat>): (id: string)
    requires |ds| == 16 && forall i :: 0 <= i < |ds| ==> ds[i] < 16
    ensures |id| == 24
  {
    "fluffos_" + HexDigits(ds)
  }

  /**
   * A fresh client that connects without naming a client id gets a
   * generated one, which is one character longer than the limit, so the
   * connection is refused.
   */
  lemma GeneratedIdRefusedAsWritten(host: string, port: int, ds: seq<nat>)
    requires host != [] && 0 < port <= 65535
    requires |ds| == 16 && forall i :: 0 <= i < |ds| ==> ds[i] < 16
    ensures ConfigError(ConnectConfig(DefaultConfig(), host, port, "", GeneratedClientIdAsWritten(ds)))
      == Some("Client ID too long")
  {
  }

  /** A generated client id that fits: "fluffos_" and fifteen random hex digits. */
  function GeneratedClientId(ds: seq<nat>): (id: string)
    requires |ds| == 15 && forall i :: 0 <= i < |ds| ==> ds[i] < 16
    ensures |id| == MaxClientIdLength
  {
    "fluffos_" + HexDigits(ds)
  }

  /** With the fitting generator, connecting without a client id passes validation. */
  lemma GeneratedIdAccepted(host: string, port: int, ds: seq<nat>)
    requires host != [] && 0 < port <= 65535
    requires |ds| == 15 && forall i :: 0 <= i < |ds| ==> ds[i] < 16
    ensures ConfigError(ConnectConfig(DefaultConfig(), host, port, "", GeneratedClientId(ds))).None?
  {
  }

  // ---------------------------------------------------------------------------
  // Packet identifiers
  // ---------------------------------------------------------------------------

  /** `next_packet_id_` is a `uint16_t`. */
  predicate IsPacketIdField(id: int)
  {
    0 <= id < 0x1_0000
  }

  /** The identifier after a QoS > 0 publish: the 16-bit increment, skipping 0. */
  function NextPacketId(id: int): (r: int)
    requires IsPacketIdField(id)
    ensures IsPacketIdField(r) && r != 0
    ensures id < 0xFFFF ==> r == id + 1
    ensures id == 0xFFFF ==> r == 1
  {
    var wrapped := (id + 1) % 0x1_0000;
    if wrapped == 0 then 1 else wrapped
  }

  /** The identifier after a subscribe or unsubscribe as written: the 16-bit increment alone. */
  function SubscribePacketIdAsWritten(id: int): (r: int)
    requires IsPacketIdField(id)
    ensures IsPacketIdField(r)
    ensures r == 0 <==> id == 0xFFFF
  {
    (id + 1) % 0x1_0000
  }

  /**
   * A publish is numbered with the field's current value.  A subscribe sent
   * with identifier 65535 leaves 0 there, so the following QoS 1 publish is
   * numbered 0, which MQTT 3.1.1 section 2.3.1 forbids; the publish then
   * moves the field on to 1.
   */
  lemma ZeroPacketIdAsWritten()
    ensures SubscribePacketIdAsWritten(0xFFFF) == 0
    ensures NextPacketId(SubscribePacketIdAsWritten(0xFFFF)) == 1
  {
  }

  // ---------------------------------------------------------------------------
  // The outgoing queue
  // ---------------------------------------------------------------------------

  datatype PublishMessage = PublishMessage(topic: string, payload: string, qos: int, retain: bool, dup: bool, packetId: int)

  /** What a pass over the outgoing queue sends and what it leaves queued. */
  datatype Drain = Drain(sent: seq<PublishMessage>, rest: seq<PublishMessage>)

  /**
   * `process_outgoing_queue` with an attached connection: a message that
   * does not convert to the library's publish parameters is dropped, a sent
   * one is removed, and the first send that fails stops the pass with that
   * message still at the head.
   */
  function Drained(q: seq<PublishMessage>, converts: PublishMessage -> bool, sends: PublishMessage -> bool): (d: Drain)
    ensures |d.sent| + |d.rest| <= |q|
    decreases |q|
  {
    if q == [] then Drain([], [])
    else if !converts(q[0]) then Drained(q[1..], converts, sends)
    else if sends(q[0]) then
      var d := Drained(q[1..], converts, sends);
      Drain([q[0]] + d.sent, d.rest)
    else Drain([], q)
  }

  /**
   * What stays queued is a tail of the queue headed by a message whose send
   * failed, and every message sent was queued and went through.
   */
  lemma {:induction false} DrainedMeaning(q: seq<PublishMessage>, converts: PublishMessage -> bool, sends: PublishMessage -> bool)
    ensures var d := Drained(q, converts, sends);
      d.rest == q[|q| - |d.rest|..]
      && (d.rest != [] ==> converts(d.rest[0]) && !sends(d.rest[0]))
      && (forall m :: m in d.sent ==> m in q && converts(m) && sends(m))
    decreases |q|
  {
    if q != [] && (!converts(q[0]) || sends(q[0])) {
      DrainedMeaning(q[1..], converts, sends);
      var d := Drained(q[1..], converts, sends);
      assert q[1..][|q| - 1 - |d.rest|..] == q[|q| - |d.rest|..];
    }
  }

  /** When every message converts and sends, the whole queue goes out, in order. */
  lemma {:induction false} DrainSendsAll(q: seq<PublishMessage>, converts: PublishMessage -> bool, sends: PublishMessage -> bool)
    requires forall i :: 0 <= i < |q| ==> converts(q[i]) && sends(q[i])
    ensures Drained(q, converts, sends) == Drain(q, [])
    decreases |q|
  {
    if q != [] {
      DrainSendsAll(q[1..], converts, sends);
    }
  }

  /** The payload bytes of the messages sent. */
  function PayloadBytes(ms: seq<PublishMessage>): nat
  {
    if ms == [] then 0 else PayloadBytes(ms[..|ms| - 1]) + |ms[|ms| - 1].payload|
  }

  lemma {:induction false} DrainedTail(q: seq<PublishMessage>, converts: PublishMessage -> bool, sends: PublishMessage -> bool)
    requires q != [] && converts(q[0]) && sends(q[0])
    ensures Drained(q, converts, sends).sent == [q[0]] + Drained(q[1..], converts, sends).sent
    ensures Drained(q, converts, sends).rest == Drained(q[1..], converts, sends).rest
  {
  }

  /** The send loop of `process_outgoing_queue`: what stays queued, and how many messages and bytes went out. */
  method DrainQueue(q0: seq<PublishMessage>, converts: PublishMessage -> bool, sends: PublishMessage -> bool)
    returns (rest: seq<PublishMessage>, count: nat, bytes: nat)
    ensures var d := Drained(q0, converts, sends);
      rest == d.rest && count == |d.sent| && bytes == PayloadBytes(d.sent)
  {
    var q := q0;
    count, bytes := 0, 0;
    ghost var sent: seq<PublishMessage> := [];
    while q != []
      invariant Drained(q0, converts, sends).sent == sent + Drained(q, converts, sends).sent
      invariant Drained(q0, converts, sends).rest == Drained(q, converts, sends).rest
      invariant count == |sent| && bytes == PayloadBytes(sent)
      decreases |q|
    {
      var msg := q[0];
      if !converts(msg) {
        q := q[1..];
      } else if sends(msg) {
        DrainedTail(q, converts, sends);
        count, bytes := count + 1, bytes + |msg.payload|;
        assert (sent + [msg])[..|sent|] == sent;
        sent := sent + [msg];
        q := q[1..];
      } else {
        assert sent + [] == sent;
        return q, count, bytes;
      }
    }
    assert sent + [] == sent;
    return [], count, bytes;
  }

  // ---------------------------------------------------------------------------
  // The client
  // ---------------------------------------------------------------------------

  /** `MQTTClient`.  `linked` is whether a websocket connection handle is attached. */
  class Client {
    var state: ClientState
    var config: Config
    var linked: bool
    var subscriptions: map<string, int>
    var outgoing: seq<PublishMessage>
    var nextPacketId: int
    var pending: map<int, PublishMessage>
    var lastError: string
    var messagesSent: nat
    var bytesSent: nat

    /** Packet identifiers stay 16-bit and non-zero, and every tracked publish is QoS 1 under its own id. */
    ghost predicate Valid()
      reads this
    {
      0 < nextPacketId < 0x1_0000
      && (forall id :: id in pending ==> id != 0 && pending[id].packetId == id && pending[id].qos > 0)
    }

    constructor ()
      ensures Valid()
      ensures state == Disconnected && config == DefaultConfig() && !linked
      ensures subscriptions == map[] && outgoing == [] && pending == map[] && nextPacketId == 1
      ensures lastError == [] && messagesSent == 0 && bytesSent == 0
    {
      state := Disconnected;
      config := DefaultConfig();
      linked := false;
      subscriptions := map[];
      outgoing := [];
      nextPacketId := 1;
      pending := map[];
      lastError := [];
      messagesSent := 0;
      bytesSent := 0;
    }

    /** `is_connected`. */
    predicate IsConnected()
      reads this
    {
      state == Connected
    }

    /** `set_error`: the message is kept and the client enters the error state. */
    method SetError(e: string)
      modifies this
      ensures lastError == e && state == ErrorState
      ensures config == old(config) && linked == old(linked) && subscriptions == old(subscriptions)
      ensures outgoing == old(outgoing) && nextPacketId == old(nextPacketId) && pending == old(pending)
      ensures messagesSent == old(messagesSent) && bytesSent == old(bytesSent)
    {
      lastError := e;
      state := ErrorState;
    }

    /** `validate_config`: a configuration that breaks a rule puts the client in the error state. */
    method ValidateConfig() returns (ok: bool)
      modifies this
      ensures ok <==> ValidConfig(config)
      ensures ok ==> state == old(state) && lastError == old(lastError)
      ensures !ok ==> state == ErrorState && Some(lastError) == ConfigError(config)
      ensures config == old(config) && linked == old(linked) && subscriptions == old(subscriptions)
      ensures outgoing == old(outgoing) && nextPacketId == old(nextPacketId) && pending == old(pending)
      ensures messagesSent == old(messagesSent) && bytesSent == old(bytesSent)
    {
      var e := ConfigError(config);
      if e.Some? {
        SetError(e.value);
        return false;
      }
      return true;
    }

    /** `set_config`: only a disconnected client takes a new configuration. */
    method SetConfig(c: Config) returns (ok: bool)
      requires Valid()
      modifies this
      ensures Valid()
      ensures old(state) != Disconnected ==>
        !ok && state == ErrorState && lastError == "Cannot change configuration while connected" && config == old(config)
      ensures old(state) == Disconnected ==> config == c && (ok <==> ValidConfig(c))
      ensures old(state) == Disconnected && !ok ==> state == ErrorState && Some(lastError) == ConfigError(c)
      ensures ok ==> state == Disconnected
      ensures linked == old(linked) && subscriptions == old(subscriptions) && outgoing == old(outgoing)
      ensures nextPacketId == old(nextPacketId) && pending == old(pending)
    {
      if state != Disconnected {
        SetError("Cannot change configuration while connected");
        return false;
      }
      config := c;
      ok := ValidateConfig();
    }

    /**
     * `connect`: a disconnected client takes the host, and the port and id
     * when given (`generated` stands for `generate_random_client_id`), and
     * starts connecting when the result is valid.
     */
    method Connect(host: string, port: int, clientId: string, generated: string) returns (ok: bool)
      requires Valid()
      modifies this
      ensures Valid()
      ensures old(state) != Disconnected ==>
        !ok && state == ErrorState && lastError == "Already connected or connecting" && config == old(config)
      ensures old(state) == Disconnected ==>
        config == ConnectConfig(old(config), host, port, clientId, generated) && (ok <==> ValidConfig(config))
      ensures old(state) == Disconnected && !ok ==> state == ErrorState && Some(lastError) == ConfigError(config)
      ensures ok ==> state == Connecting
      ensures linked == old(linked) && subscriptions == old(subscriptions) && outgoing == old(outgoing)
      ensures nextPacketId == old(nextPacketId) && pending == old(pending)
    {
      if state != Disconnected {
        SetError("Already connected or connecting");
        return false;
      }
      config := ConnectConfig(config, host, port, clientId, generated);
      ok := ValidateConfig();
      if ok {
        state := Connecting;
      }
    }

    /** `disconnect`: drops subscriptions, queued and pending messages and the handle. */
    method Disconnect() returns (ok: bool)
      requires Valid()
      modifies this
      ensures Valid()
      ensures ok && state == Disconnected
      ensures old(state) == Disconnected ==>
        linked == old(linked) && subscriptions == old(subscriptions) && outgoing == old(outgoing) && pending == old(pending)
      ensures old(state) != Disconnected ==>
        !linked && subscriptions == map[] && outgoing == [] && pending == map[]
      ensures config == old(config) && nextPacketId == old(nextPacketId) && lastError == old(lastError)
      ensures messagesSent == old(messagesSent) && bytesSent == old(bytesSent)
    {
      if state == Disconnected {
        return true;
      }
      state := Disconnecting;
      subscriptions := map[];
      outgoing := [];
      pending := map[];
      state := Disconnected;
      linked := false;
      return true;
    }

    /**
     * `process_outgoing_queue`: without a handle nothing is sent; otherwise
     * the queue is drained as `Drained` says, counting what is sent, and a
     * failed send puts the client in the error state.
     */
    method ProcessOutgoingQueue(converts: PublishMessage -> bool, sends: PublishMessage -> bool) returns (ok: bool)
      requires Valid()
      modifies this
      ensures Valid()
      ensures !old(linked) ==> !ok && outgoing == old(outgoing) && messagesSent == old(messagesSent)
      ensures !old(linked) ==> state == old(state) && lastError == old(lastError) && bytesSent == old(bytesSent)
      ensures old(linked) ==>
        var d := Drained(old(outgoing), converts, sends);
        outgoing == d.rest && (ok <==> d.rest == [])
        && messagesSent == old(messagesSent) + |d.sent| && bytesSent == old(bytesSent) + PayloadBytes(d.sent)
      ensures old(linked) && !ok ==> state == ErrorState && lastError == "Failed to send publish message"
      ensures ok ==> state == old(state) && lastError == old(lastError)
      ensures config == old(config) && linked == old(linked) && subscriptions == old(subscriptions)
      ensures nextPacketId == old(nextPacketId) && pending == old(pending)
    {
      if !linked {
        return false;
      }
      var rest, count, bytes := DrainQueue(outgoing, converts, sends);
      messagesSent, bytesSent := messagesSent + count, bytesSent + bytes;
      outgoing := rest;
      if rest != [] {
        SetError("Failed to send publish message");
        return false;
      }
      return true;
    }

    /**
     * `publish`: a connected client queues a valid message and drains the
     * queue; a QoS 1 message takes the next packet identifier and is kept
     * until acknowledged.
     */
    method Publish(topic: string, payload: string, qos: int, retain: bool,
                   converts: PublishMessage -> bool, sends: PublishMessage -> bool) returns (ok: bool)
      requires Valid()
      modifies this
      ensures Valid()
      ensures !old(IsConnected()) ==> !ok && state == ErrorState && lastError == "Not connected to broker"
      ensures old(IsConnected()) && !MqttMessage.IsValidPublishTopic(topic) ==>
        !ok && state == ErrorState && lastError == "Invalid topic for publishing"
      ensures old(IsConnected()) && MqttMessage.IsValidPublishTopic(topic) && !ValidQosLevel(qos) ==>
        !ok && state == ErrorState && lastError == "Invalid QoS level"
      ensures !(old(IsConnected()) && MqttMessage.IsValidPublishTopic(topic) && ValidQosLevel(qos)) ==>
        outgoing == old(outgoing) && pending == old(pending) && nextPacketId == old(nextPacketId)
      ensures old(IsConnected()) && MqttMessage.IsValidPublishTopic(topic) && qos == 1 ==>
        var msg := PublishMessage(topic, payload, qos, retain, false, old(nextPacketId));
        pending == old(pending)[old(nextPacketId) := msg] && nextPacketId == NextPacketId(old(nextPacketId))
        && (linked ==> outgoing == Drained(old(outgoing) + [msg], converts, sends).rest)
        && (!linked ==> outgoing == old(outgoing) + [msg])
      ensures old(IsConnected()) && MqttMessage.IsValidPublishTopic(topic) && qos == 0 ==>
        var msg := PublishMessage(topic, payload, qos, retain, false, 0);
        pending == old(pending) && nextPacketId == old(nextPacketId)
        && (linked ==> outgoing == Drained(old(outgoing) + [msg], converts, sends).rest)
        && (!linked ==> outgoing == old(outgoing) + [msg])
      ensures config == old(config) && linked == old(linked) && subscriptions == old(subscriptions)
    {
      if state != Connected {
        SetError("Not connected to broker");
        return false;
      }
      if !MqttMessage.IsValidPublishTopic(topic) {
        SetError("Invalid topic for publishing");
        return false;
      }
      if !ValidQosLevel(qos) {
        SetError("Invalid QoS level");
        return false;
      }
      var msg := PublishMessage(topic, payload, qos, retain, false, 0);
      if qos > 0 {
        msg := msg.(packetId := nextPacketId);
        nextPacketId := NextPacketId(nextPacketId);
        pending := pending[msg.packetId := msg];
      }
      outgoing := outgoing + [msg];
      ok := ProcessOutgoingQueue(converts, sends);
    }

    /**
     * `subscribe` for one filter: a connected client records a valid new
     * filter and, with a handle attached, sends the request, whose outcome
     * is `sendOk`; without a handle the call reports failure.
     */
    method Subscribe(filter: string, qos: int, sendOk: bool) returns (ok: bool)
      requires Valid()
      modifies this
      ensures Valid()
      ensures !old(IsConnected()) ==> !ok && state == ErrorState && lastError == "Not connected to broker"
      ensures old(IsConnected()) && !MqttMessage.IsValidSubscribeFilter(filter) ==>
        !ok && state == ErrorState && lastError == "Invalid topic filter for subscription"
      ensures old(IsConnected()) && MqttMessage.IsValidSubscribeFilter(filter) && !ValidQosLevel(qos) ==>
        !ok && state == ErrorState && lastError == "Invalid QoS level"
      ensures old(IsConnected()) && MqttMessage.IsValidSubscribeFilter(filter) && ValidQosLevel(qos) ==>
        state == Connected && filter in subscriptions
      ensures (old(IsConnected()) && MqttMessage.IsValidSubscribeFilter(filter) && ValidQosLevel(qos)
        && filter in old(subscriptions)) ==>
        ok && subscriptions == old(subscriptions) && nextPacketId == old(nextPacketId)
      ensures (old(IsConnected()) && MqttMessage.IsValidSubscribeFilter(filter) && ValidQosLevel(qos)
        && filter !in old(subscriptions)) ==>
        subscriptions == old(subscriptions)[filter := qos] && (ok <==> linked && sendOk)
        && nextPacketId == (if linked then NextPacketId(old(nextPacketId)) else old(nextPacketId))
      ensures !(old(IsConnected()) && MqttMessage.IsValidSubscribeFilter(filter) && ValidQosLevel(qos)) ==>
        subscriptions == old(subscriptions) && nextPacketId == old(nextPacketId)
      ensures config == old(config) && linked == old(linked) && outgoing == old(outgoing) && pending == old(pending)
    {
      if state != Connected {
        SetError("Not connected to broker");
        return false;
      }
      if !MqttMessage.IsValidSubscribeFilter(filter) {
        SetError("Invalid topic filter for subscription");
        return false;
      }
      if !ValidQosLevel(qos) {
        SetError("Invalid QoS level");
        return false;
      }
      if filter in subscriptions {
        return true;
      }
      subscriptions := subscriptions[filter := qos];
      if linked {
        nextPacketId := NextPacketId(nextPacketId);
        return sendOk;
      }
      return false;
    }

    /** `unsubscribe` for one filter: an unknown filter needs nothing; a known one is dropped and the request sent. */
    method Unsubscribe(filter: string, sendOk: bool) returns (ok: bool)
      requires Valid()
      modifies this
      ensures Valid()
      ensures !old(IsConnected()) ==>
        !ok && state == ErrorState && lastError == "Not connected to broker" && subscriptions == old(subscriptions)
      ensures old(IsConnected()) ==> state == Connected && filter !in subscriptions
      ensures old(IsConnected()) && filter !in old(subscriptions) ==> ok && subscriptions == old(subscriptions)
      ensures old(IsConnected()) && filter in old(subscriptions) ==>
        subscriptions == old(subscriptions) - {filter} && (ok <==> linked && sendOk)
        && nextPacketId == (if linked then NextPacketId(old(nextPacketId)) else old(nextPacketId))
      ensures !(old(IsConnected()) && filter in old(subscriptions)) ==> nextPacketId == old(nextPacketId)
      ensures config == old(config) && linked == old(linked) && outgoing == old(outgoing) && pending == old(pending)
    {
      if state != Connected {
        SetError("Not connected to broker");
        return false;
      }
      if filter !in subscriptions {
        return true;
      }
      subscriptions := subscriptions - {filter};
      if linked {
        nextPacketId := NextPacketId(nextPacketId);
        return sendOk;
      }
      return false;
    }

    /** `set_will`: a valid topic and QoS replace the will; otherwise the client enters the error state. */
    method SetWill(topic: string, message: string, qos: int, retain: bool) returns (ok: bool)
      requires Valid()
      modifies this
      ensures Valid()
      ensures ok <==> MqttMessage.IsValidPublishTopic(topic) && ValidQosLevel(qos)
      ensures ok ==> config == old(config).(will := Will(topic, message, qos, retain)) && state == old(state)
      ensures !MqttMessage.IsValidPublishTopic(topic) ==> state == ErrorState && lastError == "Invalid will topic"
      ensures MqttMessage.IsValidPublishTopic(topic) && !ValidQosLevel(qos) ==>
        state == ErrorState && lastError == "Invalid will QoS level"
      ensures !ok ==> config == old(config)
      ensures linked == old(linked) && subscriptions == old(subscriptions) && outgoing == old(outgoing)
      ensures nextPacketId == old(nextPacketId) && pending == old(pending)
    {
      if !MqttMessage.IsValidPublishTopic(topic) {
        SetError("Invalid will topic");
        return false;
      }
      if !ValidQosLevel(qos) {
        SetError("Invalid will QoS level");
        return false;
      }
      config := config.(will := Will(topic, message, qos, retain));
      return true;
    }

    /** `clear_will`. */
    method ClearWill() returns (ok: bool)
      modifies this
      ensures ok && config == old(config).(will := NoWill)
      ensures state == old(state) && lastError == old(lastError) && linked == old(linked)
      ensures subscriptions == old(subscriptions) && outgoing == old(outgoing)
      ensures nextPacketId == old(nextPacketId) && pending == old(pending)
    {
      config := config.(will := NoWill);
      return true;
    }

    /** `set_lws_wsi`: attaching or detaching the connection handle. */
    method SetLinked(attached: bool)
      modifies this
      ensures linked == attached
      ensures state == old(state) && config == old(config) && subscriptions == old(subscriptions)
      ensures outgoing == old(outgoing) && nextPacketId == old(nextPacketId) && pending == old(pending)
      ensures lastError == old(lastError)
    {
      linked := attached;
    }

    /** `handle_client_established`: the broker accepted the connection. */
    method HandleClientEstablished()
      modifies this
      ensures state == Connected
      ensures config == old(config) && linked == old(linked) && subscriptions == old(subscriptions)
      ensures outgoing == old(outgoing) && nextPacketId == old(nextPacketId) && pending == old(pending)
      ensures lastError == old(lastError)
    {
      state := Connected;
    }

    /** `handle_client_closed`: the connection closed; subscriptions and queues are kept. */
    method HandleClientClosed()
      modifies this
      ensures state == Disconnected
      ensures config == old(config) && linked == old(linked) && subscriptions == old(subscriptions)
      ensures outgoing == old(outgoing) && nextPacketId == old(nextPacketId) && pending == old(pending)
      ensures lastError == old(lastError)
    {
      state := Disconnected;
    }
  }

  /** A client can only be configured or connected again after `disconnect`. */
  method ReconnectNeedsDisconnect(host: string, generated: string) returns (first: bool, second: bool, third: bool)
    ensures first && !second && third
  {
    var c := new Client();
    first := c.Connect(host + "h", 1883, "id", generated);
    second := c.Connect(host + "h", 1883, "id", generated);
    var _ := c.Disconnect();
    third := c.Connect(host + "h", 1883, "id", generated);
  }
}
