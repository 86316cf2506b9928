/**
 * MQTT messages: topic matching with the `+` and `#` wildcards of section
 * 4.7 of MQTT 3.1.1, topic and filter validation, the QoS rules of a message,
 * the hex codec, and the bounded message queue with its priority lane.
 */
module MqttMessage {
  import opened Wrappers
  import opened Text
  import opened Bytes

  const MaxTopicLength: nat := 65535
  const MaxPayloadLength: nat := 268435455

  // ---------------------------------------------------------------------------
  // Topic levels and matching
  // ---------------------------------------------------------------------------

  /**
   * The levels `std::getline(ss, level, '/')` yields: the '/'-separated
   * pieces, without the empty piece after a trailing '/'.
   */
  function Levels(s: string): (r: seq<string>)
    ensures forall k :: 0 <= k < |r| ==> '/' !in r[k]
    ensures s == [] ==> r == []
  {
    var p := Split(s, '/');
    if p[|p| - 1] == "" then p[..|p| - 1] else p
  }

  /** Every character of a piece of `Split(s, sep)` is a character of `s`. */
  lemma {:induction false} SplitChars(s: string, sep: char, k: nat, c: char)
    requires k < |Split(s, sep)| && c in Split(s, sep)[k]
    ensures c in s
  {
    if s != [] {
      var rest := Split(s[1..], sep);
      if s[0] == sep {
        assert k > 0 && Split(s, sep)[k] == rest[k - 1];
        SplitChars(s[1..], sep, k - 1, c);
      } else if k == 0 {
        assert Split(s, sep)[0] == [s[0]] + rest[0];
        if c != s[0] {
          SplitChars(s[1..], sep, 0, c);
        }
      } else {
        assert Split(s, sep)[k] == rest[k];
        SplitChars(s[1..], sep, k, c);
      }
    }
  }

  lemma LevelChars(s: string, k: nat, c: char)
    requires k < |Levels(s)| && c in Levels(s)[k]
    ensures c in s
  {
    SplitChars(s, '/', k, c);
  }

  /** The matching loop of `topic_matches`, one pair of levels at a time. */
  function MatchLevels(t: seq<string>, f: seq<string>): bool
    decreases |f|
  {
    if f != [] && t != [] then
      if f[0] == "#" then true
      else if f[0] == "+" || f[0] == t[0] then MatchLevels(t[1..], f[1..])
      else false
    else (f != [] && f[0] == "#") || (t == [] && f == [])
  }

  /** `mqtt::topic_matches`: does `topic` match the subscription `filter`? */
  predicate Matches(topic: string, filter: string)
  {
    filter == "#" || MatchLevels(Levels(topic), Levels(filter))
  }

  method TopicMatches(topic: string, filter: string) returns (m: bool)
    ensures m == Matches(topic, filter)
  {
    if filter == "#" {
      return true;
    }
    var tl := Levels(topic);
    var fl := Levels(filter);
    var ti, fi := 0, 0;
    while fi < |fl| && ti < |tl|
      invariant 0 <= ti <= |tl| && 0 <= fi <= |fl|
      invariant MatchLevels(tl, fl) == MatchLevels(tl[ti..], fl[fi..])
    {
      assert tl[ti..][1..] == tl[ti + 1..] && fl[fi..][1..] == fl[fi + 1..];
      if fl[fi] == "#" {
        return true;
      } else if fl[fi] == "+" || fl[fi] == tl[ti] {
        ti := ti + 1;
        fi := fi + 1;
      } else {
        return false;
      }
    }
    if fi < |fl| && fl[fi] == "#" {
      return true;
    }
    return ti == |tl| && fi == |fl|;
  }

  /** The filter "#" matches every topic. */
  lemma HashMatchesAll(topic: string)
    ensures Matches(topic, "#")
  {
  }

  /** A trailing "#" level matches the parent level and everything below it. */
  lemma {:induction false} TrailingHashMatchesBelow(t: seq<string>, prefix: seq<string>, below: seq<string>)
    requires forall k :: 0 <= k < |prefix| ==> prefix[k] != "#" && prefix[k] != "+"
    ensures MatchLevels(prefix + below, prefix + ["#"])
    decreases |prefix|
  {
    if prefix != [] {
      assert (prefix + below)[1..] == prefix[1..] + below;
      assert (prefix + ["#"])[1..] == prefix[1..] + ["#"];
      TrailingHashMatchesBelow(t, prefix[1..], below);
    } else {
      assert prefix + ["#"] == ["#"];
    }
  }

  /** "+" takes exactly one level: it needs a level to match and then goes on with the rest. */
  lemma PlusTakesOneLevel(t: seq<string>, f: seq<string>)
    ensures MatchLevels(t, ["+"] + f) <==> t != [] && MatchLevels(t[1..], f)
  {
    assert (["+"] + f)[1..] == f;
  }

  /** Without wildcard levels, a filter matches exactly the topics with the same levels. */
  lemma {:induction false} PlainLevelsMatchIffEqual(t: seq<string>, f: seq<string>)
    requires forall k :: 0 <= k < |f| ==> f[k] != "#" && f[k] != "+"
    ensures MatchLevels(t, f) <==> t == f
    decreases |f|
  {
    if f != [] && t != [] {
      PlainLevelsMatchIffEqual(t[1..], f[1..]);
      if t[0] == f[0] && t[1..] == f[1..] {
        assert t == [t[0]] + t[1..] && f == [f[0]] + f[1..];
      }
    }
  }

  /** A filter with no wildcard characters matches a topic iff their levels are equal. */
  lemma PlainFilterMatchesIffSameLevels(topic: string, filter: string)
    requires '+' !in filter && '#' !in filter
    ensures Matches(topic, filter) <==> Levels(topic) == Levels(filter)
  {
    var fl := Levels(filter);
    forall k | 0 <= k < |fl|
      ensures fl[k] != "#" && fl[k] != "+"
    {
      if fl[k] == "#" {
        LevelChars(filter, k, '#');
      }
      if fl[k] == "+" {
        LevelChars(filter, k, '+');
      }
    }
    assert '#' in "#";
    PlainLevelsMatchIffEqual(Levels(topic), fl);
  }

  // ---------------------------------------------------------------------------
  // Topic and filter validation
  // ---------------------------------------------------------------------------

  /** `mqtt::is_valid_publish_topic`. */
  predicate IsValidPublishTopic(topic: string)
  {
    0 < |topic| <= MaxTopicLength && IndexOf(topic, "+", 0) < 0 && IndexOf(topic, "#", 0) < 0
  }

  /** `mqtt::is_valid_subscribe_filter`: the first '#' must end the filter and follow '/'. */
  predicate IsValidSubscribeFilter(filter: string)
  {
    0 < |filter| <= MaxTopicLength &&
    var hash := IndexOf(filter, "#", 0);
    hash < 0 || (hash == |filter| - 1 && (hash == 0 || filter[hash - 1] == '/'))
  }

  lemma OccursAtChar(s: string, c: char, i: int)
    ensures OccursAt(s, [c], i) <==> 0 <= i < |s| && s[i] == c
  {
    if 0 <= i < |s| {
      assert s[i..i + 1] == [s[i]];
    }
  }

  /** `IndexOf` of a one-character string finds that character. */
  lemma IndexOfChar(s: string, c: char)
    ensures IndexOf(s, [c], 0) >= 0 <==> c in s
    ensures IndexOf(s, [c], 0) >= 0 ==> s[IndexOf(s, [c], 0)] == c
    ensures forall i :: 0 <= i < |s| && s[i] == c ==> IndexOf(s, [c], 0) <= i
  {
    var r := IndexOf(s, [c], 0);
    OccursAtChar(s, c, r);
    forall i | 0 <= i < |s| && s[i] == c
      ensures r >= 0 && r <= i
    {
      OccursAtChar(s, c, i);
    }
  }

  /** A publish topic is valid iff it is non-empty, short enough and free of wildcards. */
  lemma PublishTopicRule(topic: string)
    ensures IsValidPublishTopic(topic) <==> 0 < |topic| <= MaxTopicLength && '+' !in topic && '#' !in topic
  {
    IndexOfChar(topic, '+');
    IndexOfChar(topic, '#');
  }

  /** A filter is valid iff every '#' is its last character and stands alone as a level. */
  lemma SubscribeFilterRule(filter: string)
    ensures IsValidSubscribeFilter(filter) <==>
      0 < |filter| <= MaxTopicLength &&
      forall i :: 0 <= i < |filter| && filter[i] == '#' ==> i == |filter| - 1 && (i == 0 || filter[i - 1] == '/')
  {
    IndexOfChar(filter, '#');
  }

  /** `MQTTMessage::is_valid_topic_name`: `isFilter` selects the filter rules. */
  predicate IsValidTopicName(topic: string, isFilter: bool)
  {
    0 < |topic| <= MaxTopicLength && IndexOf(topic, "\0", 0) < 0 &&
    if isFilter then IsValidSubscribeFilter(topic) else IsValidPublishTopic(topic)
  }

  /** Every valid publish topic without a NUL is a valid filter, and matches itself. */
  lemma PublishTopicIsFilter(topic: string)
    requires IsValidTopicName(topic, false)
    ensures IsValidTopicName(topic, true)
    ensures Matches(topic, topic)
  {
    PublishTopicRule(topic);
    SubscribeFilterRule(topic);
    PlainFilterMatchesIffSameLevels(topic, topic);
  }

  // ---------------------------------------------------------------------------
  // The message object and its checks
  // ---------------------------------------------------------------------------

  /** The first problem `validate_topic` reports in the characters from `i` on. */
  function CharError(topic: string, i: nat): Option<string>
    decreases |topic| - i
  {
    if i >= |topic| then None
    else if topic[i] == '+' || topic[i] == '#' then Some("Topic contains wildcard characters")
    else if topic[i] == '\0' then Some("Topic contains null character")
    else CharError(topic, i + 1)
  }

  /** What `validate_topic` reports, or `None` when the topic passes. */
  function TopicError(topic: string): Option<string>
  {
    if topic == [] then Some("Topic cannot be empty")
    else if |topic| > MaxTopicLength then Some("Topic length exceeds maximum")
    else CharError(topic, 0)
  }

  /** What `validate_qos` reports. */
  function QosError(qos: int): Option<string>
  {
    if qos < 0 || qos > 2 then Some("Invalid QoS level")
    else if qos == 2 then Some("QoS 2 not supported by libwebsockets")
    else None
  }

  /** What `validate_payload` reports. */
  function PayloadError(payload: string): Option<string>
  {
    if |payload| > MaxPayloadLength then Some("Payload length exceeds maximum") else None
  }

  /** The first error of `is_valid`: topic, then QoS, then payload. */
  function MessageError(topic: string, qos: int, payload: string): Option<string>
  {
    if TopicError(topic).Some? then TopicError(topic)
    else if QosError(qos).Some? then QosError(qos)
    else PayloadError(payload)
  }

  lemma {:induction false} CharErrorNone(topic: string, i: nat)
    ensures CharError(topic, i).None? <==>
      forall j :: i <= j < |topic| ==> topic[j] != '+' && topic[j] != '#' && topic[j] != '\0'
    decreases |topic| - i
  {
    if i < |topic| {
      CharErrorNone(topic, i + 1);
    }
  }

  /** A topic passes `validate_topic` iff it is a valid publish topic without a NUL. */
  lemma TopicErrorIffInvalid(topic: string)
    ensures TopicError(topic).None? <==> IsValidTopicName(topic, false)
  {
    CharErrorNone(topic, 0);
    PublishTopicRule(topic);
    IndexOfChar(topic, '\0');
  }

  /** A message passes `is_valid` iff its topic is publishable, its QoS is 0 or 1 and its payload fits. */
  lemma MessageValidRule(topic: string, qos: int, payload: string)
    ensures MessageError(topic, qos, payload).None? <==>
      IsValidTopicName(topic, false) && (qos == 0 || qos == 1) && |payload| <= MaxPayloadLength
  {
    TopicErrorIffInvalid(topic);
  }

  type u16 = x: int | 0 <= x < 0x1_0000

  class Message {
    var topic: string
    var payload: string
    var qos: int
    var retain: bool
    var dup: bool
    var packetId: u16
    var isBinary: bool
    var validationError: string

    /** The constructor stores the QoS as given; only `SetQos` filters it. */
    constructor(topic: string, payload: string, qos: int, retain: bool)
      ensures this.topic == topic && this.payload == payload && this.qos == qos && this.retain == retain
      ensures !dup && packetId == 0 && !isBinary && validationError == ""
    {
      this.topic := topic;
      this.payload := payload;
      this.qos := qos;
      this.retain := retain;
      dup := false;
      packetId := 0;
      isBinary := false;
      validationError := "";
    }

    /** `set_qos`: values outside 0..2 are ignored. */
    method SetQos(q: int)
      modifies this`qos
      ensures qos == (if 0 <= q <= 2 then q else old(qos))
    {
      if 0 <= q <= 2 {
        qos := q;
      }
    }

    /** `set_payload(string)`: a text payload. */
    method SetPayload(p: string)
      modifies this`payload, this`isBinary
      ensures payload == p && !isBinary
    {
      payload := p;
      isBinary := false;
    }

    /** `set_payload(data, length)`: a binary payload. */
    method SetBinaryPayload(p: string)
      modifies this`payload, this`isBinary
      ensures payload == p && isBinary
    {
      payload := p;
      isBinary := true;
    }

    /** `validate_topic`: scans the characters after the length checks. */
    method ValidateTopic() returns (ok: bool)
      modifies this`validationError
      ensures ok <==> TopicError(topic).None?
      ensures validationError == if ok then old(validationError) else TopicError(topic).value
    {
      if topic == [] {
        validationError := "Topic cannot be empty";
        return false;
      }
      if |topic| > MaxTopicLength {
        validationError := "Topic length exceeds maximum";
        return false;
      }
      var i := 0;
      while i < |topic|
        invariant 0 <= i <= |topic|
        invariant CharError(topic, 0) == CharError(topic, i)
      {
        var c := topic[i];
        if c == '+' || c == '#' {
          validationError := "Topic contains wildcard characters";
          return false;
        }
        if c == '\0' {
          validationError := "Topic contains null character";
          return false;
        }
        i := i + 1;
      }
      return true;
    }

    /** `validate_qos`. */
    method ValidateQos() returns (ok: bool)
      modifies this`validationError
      ensures ok <==> QosError(qos).None?
      ensures validationError == if ok then old(validationError) else QosError(qos).value
    {
      if qos < 0 || qos > 2 {
        validationError := "Invalid QoS level";
        return false;
      }
      if qos == 2 {
        validationError := "QoS 2 not supported by libwebsockets";
        return false;
      }
      return true;
    }

    /** `validate_payload`. */
    method ValidatePayload() returns (ok: bool)
      modifies this`validationError
      ensures ok <==> PayloadError(payload).None?
      ensures validationError == if ok then old(validationError) else PayloadError(payload).value
    {
      if |payload| > MaxPayloadLength {
        validationError := "Payload length exceeds maximum";
        return false;
      }
      return true;
    }

    /** `is_valid`: clears the error, then reports the first failing check. */
    method IsValid() returns (ok: bool)
      modifies this`validationError
      ensures ok <==> MessageError(topic, qos, payload).None?
      ensures validationError == MessageError(topic, qos, payload).GetOr("")
    {
      validationError := "";
      ok := ValidateTopic();
      if !ok {
        return;
      }
      ok := ValidateQos();
      if !ok {
        return;
      }
      ok := ValidatePayload();
    }
  }

  // ---------------------------------------------------------------------------
  // Hex codec
  // ---------------------------------------------------------------------------

  /** The lower-case digit `std::hex` prints for `d`. */
  function HexChar(d: nat): (c: char)
    requires d < 16
    ensures IsHexDigit(c)
  {
    if d < 10 then ('0' as int + d) as char else ('a' as int + d - 10) as char
  }

  /** The value of a hex digit. */
  function HexValue(c: char): (v: nat)
    requires IsHexDigit(c)
    ensures v < 16
  {
    if IsDigit(c) then c as int - '0' as int
    else if 'a' <= c <= 'f' then c as int - 'a' as int + 10
    else c as int - 'A' as int + 10
  }

  lemma HexValueOfChar(d: nat)
    requires d < 16
    ensures HexValue(HexChar(d)) == d
  {
  }

  /** `mqtt::binary_to_hex`: two lower-case digits per byte. */
  function HexEncode(bs: seq<byte>): (s: string)
    ensures |s| == 2 * |bs|
    ensures forall i :: 0 <= i < |s| ==> IsHexDigit(s[i])
  {
    if bs == [] then [] else HexEncode(bs[..|bs| - 1]) + [HexChar(bs[|bs| - 1] / 16), HexChar(bs[|bs| - 1] % 16)]
  }

  method BinaryToHex(bs: seq<byte>) returns (s: string)
    ensures s == HexEncode(bs)
  {
    s := [];
    var i := 0;
    while i < |bs|
      invariant 0 <= i <= |bs|
      invariant s == HexEncode(bs[..i])
    {
      assert bs[..i + 1][..i] == bs[..i];
      s := s + [HexChar(bs[i] / 16), HexChar(bs[i] % 16)];
      i := i + 1;
    }
    assert bs[..i] == bs;
  }

  /**
   * `std::stoul(pair, nullptr, 16)` cast to a byte: leading white space and a
   * sign are skipped, then as many hex digits as follow are read (a "0x"
   * prefix reads as the digit 0).  No digit at all throws, which fails the
   * decode.  A minus sign negates modulo 2^64, so modulo 256 for the byte.
   */
  function ParsePair(c0: char, c1: char): Option<byte>
  {
    if IsHexDigit(c0) then
      if IsHexDigit(c1) then Some(HexValue(c0) * 16 + HexValue(c1)) else Some(HexValue(c0))
    else if (IsSpace(c0) || c0 == '+') && IsHexDigit(c1) then Some(HexValue(c1))
    else if c0 == '-' && IsHexDigit(c1) then Some((256 - HexValue(c1)) % 256)
    else None
  }

  /** `mqtt::hex_to_binary` as written: odd lengths fail, then pair by pair. */
  function HexDecode(s: string): Option<seq<byte>>
    decreases |s|
  {
    if |s| % 2 != 0 then None
    else if s == [] then Some([])
    else
      var last := ParsePair(s[|s| - 2], s[|s| - 1]);
      var init := HexDecode(s[..|s| - 2]);
      if init.None? || last.None? then None else Some(init.value + [last.value])
  }

  method HexToBinary(hex: string) returns (ok: bool, binary: seq<byte>)
    ensures ok <==> HexDecode(hex).Some?
    ensures ok ==> binary == HexDecode(hex).value
  {
    if |hex| % 2 != 0 {
      return false, [];
    }
    binary := [];
    var i := 0;
    while i < |hex|
      invariant 0 <= i <= |hex| && i % 2 == 0
      invariant HexDecode(hex[..i]) == Some(binary)
    {
      var b := ParsePair(hex[i], hex[i + 1]);
      assert hex[..i + 2][..i] == hex[..i];
      assert hex[..i + 2][i] == hex[i] && hex[..i + 2][i + 1] == hex[i + 1];
      if b.None? {
        assert HexDecode(hex[..i + 2]).None?;
        HexDecodeExtends(hex, i + 2);
        return false, binary;
      }
      binary := binary + [b.value];
      i := i + 2;
    }
    assert hex[..i] == hex;
    return true, binary;
  }

  /** A failing prefix of even length makes the whole decode fail. */
  lemma {:induction false} HexDecodeExtends(s: string, n: nat)
    requires n <= |s| && n % 2 == 0 && |s| % 2 == 0 && HexDecode(s[..n]).None?
    ensures HexDecode(s).None?
    decreases |s| - n
  {
    if n < |s| {
      assert s[..n + 2][..n] == s[..n];
      HexDecodeExtends(s, n + 2);
    } else {
      assert s[..n] == s;
    }
  }

  /** Decoding the hex of any bytes gives the bytes back. */
  lemma {:induction false} HexRoundTrip(bs: seq<byte>)
    ensures HexDecode(HexEncode(bs)) == Some(bs)
  {
    if bs != [] {
      var b := bs[|bs| - 1];
      var s := HexEncode(bs);
      HexRoundTrip(bs[..|bs| - 1]);
      assert s == HexEncode(bs[..|bs| - 1]) + [HexChar(b / 16), HexChar(b % 16)];
      assert s[..|s| - 2] == HexEncode(bs[..|bs| - 1]);
      assert s[|s| - 2] == HexChar(b / 16) && s[|s| - 1] == HexChar(b % 16);
      PairOfByte(b);
      assert HexDecode(s) == Some(bs[..|bs| - 1] + [b]);
      assert bs[..|bs| - 1] + [b] == bs;
    }
  }

  /** The two digits printed for a byte read back as that byte, leniently and strictly. */
  lemma PairOfByte(b: byte)
    ensures ParsePair(HexChar(b / 16), HexChar(b % 16)) == Some(b)
    ensures IsHexDigit(HexChar(b / 16)) && IsHexDigit(HexChar(b % 16))
    ensures HexValue(HexChar(b / 16)) * 16 + HexValue(HexChar(b % 16)) == b as int
  {
    HexValueOfChar(b / 16);
    HexValueOfChar(b % 16);
    assert (b / 16) * 16 + b % 16 == b;
  }

  /** Odd-length text is always refused. */
  lemma OddHexRejected(s: string)
    requires |s| % 2 == 1
    ensures HexDecode(s).None?
  {
  }

  /** The lenient pair parse lets non-hex text through: "0g" decodes to one zero byte. */
  lemma NonHexAccepted()
    ensures HexDecode("0g") == Some([0])
    ensures HexDecode("-1") == Some([255])
  {
    var a := "0g";
    assert |a| == 2 && a[..|a| - 2] == [] && a[|a| - 2] == '0' && a[|a| - 1] == 'g';
    var zero: seq<byte> := [0];
    assert ParsePair('0', 'g') == Some(0);
    assert HexDecode(a) == Some([] + zero);
    assert [] + zero == zero;
    var b := "-1";
    assert |b| == 2 && b[..|b| - 2] == [] && b[|b| - 2] == '-' && b[|b| - 1] == '1';
    var top: seq<byte> := [255];
    assert ParsePair('-', '1') == Some(255);
    assert HexDecode(b) == Some([] + top);
    assert [] + top == top;
  }

  /** The decoder evidently intended: every character a hex digit. */
  function StrictHexDecode(s: string): Option<seq<byte>>
    decreases |s|
  {
    if |s| % 2 != 0 then None
    else if s == [] then Some([])
    else
      var init := StrictHexDecode(s[..|s| - 2]);
      if init.None? || !IsHexDigit(s[|s| - 2]) || !IsHexDigit(s[|s| - 1]) then None
      else Some(init.value + [HexValue(s[|s| - 2]) * 16 + HexValue(s[|s| - 1])])
  }

  /** The strict decoder accepts exactly the even-length strings of hex digits. */
  lemma {:induction false} StrictHexAccepts(s: string)
    ensures StrictHexDecode(s).Some? <==> |s| % 2 == 0 && forall i :: 0 <= i < |s| ==> IsHexDigit(s[i])
    decreases |s|
  {
    if |s| % 2 == 0 && s != [] {
      var init := s[..|s| - 2];
      StrictHexAccepts(init);
      assert forall i :: 0 <= i < |init| ==> init[i] == s[i];
    }
  }

  /** The strict decoder inverts the encoder, and agrees with the lenient one on hex text. */
  lemma {:induction false} StrictHexRoundTrip(bs: seq<byte>)
    ensures StrictHexDecode(HexEncode(bs)) == Some(bs)
  {
    if bs != [] {
      var b := bs[|bs| - 1];
      var s := HexEncode(bs);
      StrictHexRoundTrip(bs[..|bs| - 1]);
      assert s == HexEncode(bs[..|bs| - 1]) + [HexChar(b / 16), HexChar(b % 16)];
      assert s[..|s| - 2] == HexEncode(bs[..|bs| - 1]);
      assert s[|s| - 2] == HexChar(b / 16) && s[|s| - 1] == HexChar(b % 16);
      PairOfByte(b);
      assert StrictHexDecode(s) == Some(bs[..|bs| - 1] + [b]);
      assert bs[..|bs| - 1] + [b] == bs;
    }
  }

  // ---------------------------------------------------------------------------
  // The message queue
  // ---------------------------------------------------------------------------

  /** `enqueue` as written checks only the regular lane; corrected, both lanes. */
  datatype Variant = AsWritten | Corrected

  datatype QState<T> = QState(queue: seq<T>, priority: seq<T>)
  {
    function Size(): nat { |queue| + |priority| }
    /** The order in which `dequeue` hands the messages out. */
    function Order(): seq<T> { priority + queue }
  }

  /** `enqueue`: refused when the lane (as written) or the queue (corrected) is full. */
  function Enqueued<T>(v: Variant, st: QState<T>, m: T, maxSize: nat): (r: (bool, QState<T>))
    ensures r.0 ==> r.1.Order() == st.Order() + [m] && r.1.Size() == st.Size() + 1
    ensures !r.0 ==> r.1 == st
    ensures v == Corrected ==> (r.0 <==> st.Size() < maxSize)
  {
    var full := if v == AsWritten then |st.queue| >= maxSize else st.Size() >= maxSize;
    if full then (false, st) else (true, st.(queue := st.queue + [m]))
  }

  /** `enqueue_priority`: refused when the queue is full; otherwise ahead of every regular message. */
  function PriorityEnqueued<T>(st: QState<T>, m: T, maxSize: nat): (r: (bool, QState<T>))
    ensures r.0 <==> st.Size() < maxSize
    ensures r.0 ==> r.1.Order() == st.priority + [m] + st.queue
    ensures !r.0 ==> r.1 == st
  {
    if st.Size() >= maxSize then (false, st) else (true, st.(priority := st.priority + [m]))
  }

  /** `dequeue`: the next message in order, priority lane first. */
  function Dequeued<T>(st: QState<T>): (r: (Option<T>, QState<T>))
    ensures st.Order() == [] ==> r.0.None? && r.1 == st
    ensures st.Order() != [] ==> r.0 == Some(st.Order()[0]) && r.1.Order() == st.Order()[1..]
  {
    if st.priority != [] then (Some(st.priority[0]), st.(priority := st.priority[1..]))
    else if st.queue != [] then (Some(st.queue[0]), st.(queue := st.queue[1..]))
    else (None, st)
  }

  /** Corrected, no operation takes the queue past its bound. */
  lemma BoundKept<T>(st: QState<T>, m: T, maxSize: nat)
    requires st.Size() <= maxSize
    ensures Enqueued(Corrected, st, m, maxSize).1.Size() <= maxSize
    ensures PriorityEnqueued(st, m, maxSize).1.Size() <= maxSize
    ensures Dequeued(st).1.Size() <= maxSize
  {
  }

  /** As written, a queue of size 1 holds two messages after a priority and a regular enqueue. */
  lemma EnqueueOverfills<T>(a: T, b: T)
    ensures var p := PriorityEnqueued(QState([], []), a, 1);
      var q := Enqueued(AsWritten, p.1, b, 1);
      p.0 && q.0 && q.1.Size() == 2
  {
  }

  class MessageQueue<T> {
    var queue: seq<T>
    var priority: seq<T>
    const maxSize: nat

    function State(): QState<T>
      reads this
    {
      QState(queue, priority)
    }

    /** The bound `full` reports on. */
    predicate Valid()
      reads this
    {
      State().Size() <= maxSize
    }

    constructor(maxSize: nat)
      ensures Valid() && State() == QState([], []) && this.maxSize == maxSize
    {
      queue := [];
      priority := [];
      this.maxSize := maxSize;
    }

    method Enqueue(m: T) returns (ok: bool)
      requires Valid()
      modifies this
      ensures Valid()
      ensures (ok, State()) == Enqueued(Corrected, old(State()), m, maxSize)
    {
      if |queue| + |priority| >= maxSize {
        return false;
      }
      queue := queue + [m];
      return true;
    }

    method EnqueuePriority(m: T) returns (ok: bool)
      requires Valid()
      modifies this
      ensures Valid()
      ensures (ok, State()) == PriorityEnqueued(old(State()), m, maxSize)
    {
      if |queue| + |priority| >= maxSize {
        return false;
      }
      priority := priority + [m];
      return true;
    }

    method Dequeue() returns (m: Option<T>)
      requires Valid()
      modifies this
      ensures Valid()
      ensures (m, State()) == Dequeued(old(State()))
    {
      if priority != [] {
        m := Some(priority[0]);
        priority := priority[1..];
      } else if queue != [] {
        m := Some(queue[0]);
        queue := queue[1..];
      } else {
        m := None;
      }
    }

    method Size() returns (n: nat)
      ensures n == State().Size()
    {
      return |queue| + |priority|;
    }

    method Empty() returns (b: bool)
      ensures b <==> State().Order() == []
    {
      return queue == [] && priority == [];
    }

    method Full() returns (b: bool)
      ensures b <==> State().Size() >= maxSize
    {
      return |queue| + |priority| >= maxSize;
    }

    method Clear()
      modifies this
      ensures Valid() && State() == QState([], [])
    {
      queue := [];
      priority := [];
    }
  }
}
