/**
 * WebSocket framing (RFC 6455 section 5.2 base framing, section 5.3 masking,
 * section 5.5.1 close payloads): frames as values, the byte encoding the
 * builder produces, and the incremental parser's state machine as pure step
 * functions.  The classes in WsParser and WsBuilder are proved against these.
 *
 * The parser is written once for two variants: `AsWritten` follows the source
 * line by line, `Corrected` repairs four defects (see `ParseHeader`,
 * `Continues` and `Run`).  The parser class uses `Corrected`.
 */
module WsFrame {
  import opened Bytes
  import opened Seqs
  import opened Wrappers

  type Opcode = x: int | 0 <= x < 16

  const Continuation: Opcode := 0x0
  const Text: Opcode := 0x1
  const Binary: Opcode := 0x2
  const Close: Opcode := 0x8
  const Ping: Opcode := 0x9
  const Pong: Opcode := 0xA

  /** Largest control-frame payload (`WS_FRAME_MAX_SMALL_PAYLOAD`). */
  const MaxControlPayload: nat := 125
  /** `WS_FRAME_MAX_LARGE_PAYLOAD`, the default frame-size limit. */
  const MaxLargePayload: nat := 0x7FFF_FFFF_FFFF_FFFF
  /** 2^63: a 64-bit length with its most significant bit set is at least this. */
  const LengthMsb: nat := 0x8000_0000_0000_0000
  /** 2^32: mask keys are `uint32_t`. */
  const KeyLimit: nat := 0x1_0000_0000
  /** `WS_CLOSE_NO_STATUS`. */
  const CloseNoStatus: nat := 1005
  /** Longest close reason the builders keep (125 minus the two code bytes). */
  const MaxCloseReason: nat := 123

  predicate IsValidOpcode(op: int)
  {
    op == Continuation || op == Text || op == Binary || op == Close || op == Ping || op == Pong
  }

  predicate IsControlOpcode(op: int) { op >= 0x8 }

  /** `ws_frame`. */
  datatype Frame = Frame(
    fin: bool, rsv1: bool, rsv2: bool, rsv3: bool,
    opcode: Opcode,
    masked: bool,
    payloadLength: nat,
    maskKey: nat,
    payload: seq<byte>)

  /** A default-constructed `ws_frame`. */
  const EmptyFrame: Frame := Frame(true, false, false, false, Text, false, 0, 0, [])

  // ---------------------------------------------------------------------------
  // Masking (section 5.3)
  // ---------------------------------------------------------------------------

  /** The four key bytes, most significant first. */
  function KeyBytes(key: nat): (kb: seq<byte>)
    ensures |kb| == 4
  {
    ToBigEndian(key, 4)
  }

  /** The key bytes as the sources compute them, by shifting and masking. */
  lemma KeyBytesShifts(key: nat)
    ensures KeyBytes(key) == [(key / 0x100_0000) % 256, (key / 0x1_0000) % 256, (key / 0x100) % 256, key % 256]
  {
    assert ToBigEndian(key, 4) == ToBigEndian(key / 256, 3) + [key % 256];
    assert ToBigEndian(key / 256, 3) == ToBigEndian(key / 256 / 256, 2) + [(key / 256) % 256];
    assert ToBigEndian(key / 256 / 256, 2) == ToBigEndian(key / 256 / 256 / 256, 1) + [(key / 256 / 256) % 256];
    assert key / 256 / 256 == key / 0x1_0000 && key / 256 / 256 / 256 == key / 0x100_0000;
  }

  /** `payload[i] ^= mask_bytes[i % 4]` for every byte. */
  function Mask(payload: seq<byte>, key: nat): (r: seq<byte>)
    ensures |r| == |payload|
    ensures forall i :: 0 <= i < |payload| ==> r[i] == XorB(payload[i], KeyBytes(key)[i % 4])
  {
    seq(|payload|, i requires 0 <= i < |payload| => XorB(payload[i], KeyBytes(key)[i % 4]))
  }

  /** Masking is an involution: unmasking with the same key restores the payload. */
  lemma MaskTwice(payload: seq<byte>, key: nat)
    ensures Mask(Mask(payload, key), key) == payload
  {
    var m := Mask(payload, key);
    forall i | 0 <= i < |payload|
      ensures Mask(m, key)[i] == payload[i]
    {
      XorBTwice(payload[i], KeyBytes(key)[i % 4]);
    }
  }

  // ---------------------------------------------------------------------------
  // UTF-8 (the structural check of `is_valid_utf8`)
  // ---------------------------------------------------------------------------

  /** Length of the sequence a lead byte announces; 0 for an invalid lead byte. */
  function SequenceLength(b: byte): nat
  {
    if b < 0x80 then 1
    else if b / 32 == 0x06 then 2
    else if b / 16 == 0x0E then 3
    else if b / 8 == 0x1E then 4
    else 0
  }

  predicate IsContinuationByte(b: byte) { b / 64 == 0x02 }

  /** The byte string is a sequence of well-formed lead/continuation groups. */
  predicate Utf8(s: seq<byte>)
    decreases |s|
  {
    s == [] ||
    (var k := SequenceLength(s[0]);
     0 < k <= |s| &&
     (forall j :: 1 <= j < k ==> IsContinuationByte(s[j])) &&
     Utf8(s[k..]))
  }

  /** The concatenation of two valid strings is valid. */
  lemma {:induction false} Utf8Append(a: seq<byte>, b: seq<byte>)
    requires Utf8(a) && Utf8(b)
    ensures Utf8(a + b)
    decreases |a|
  {
    if a != [] {
      var ab := a + b;
      var k := SequenceLength(a[0]);
      assert ab[0] == a[0];
      assert ab[k..] == a[k..] + b;
      Utf8Append(a[k..], b);
      assert 0 < k <= |a|;
      forall j | 1 <= j < k
        ensures IsContinuationByte(ab[j])
      {
        assert ab[j] == a[j];
      }
      assert Utf8(ab[k..]);
    } else {
      assert a + b == b;
    }
  }

  /** Bytes below 0x80 always form valid text. */
  lemma {:induction false} AsciiIsUtf8(s: seq<byte>)
    requires forall i :: 0 <= i < |s| ==> s[i] < 0x80
    ensures Utf8(s)
    decreases |s|
  {
    if s != [] {
      AsciiIsUtf8(s[1..]);
    }
  }

  // ---------------------------------------------------------------------------
  // Close payload (section 5.5.1)
  // ---------------------------------------------------------------------------

  datatype CloseInfo = CloseInfo(code: nat, reason: seq<byte>)

  /** `build_close_payload`: empty for code 0, else the code and at most 123 reason bytes. */
  function BuildClosePayload(code: nat, reason: seq<byte>): (p: seq<byte>)
    ensures code == 0 ==> p == []
    ensures code != 0 ==> |p| == 2 + Min(|reason|, MaxCloseReason) && p[2..] == reason[..|p| - 2]
  {
    if code != 0 then ToBigEndian(code, 2) + reason[..Min(|reason|, MaxCloseReason)] else []
  }

  /** `parse_close_payload`: an empty payload means "no status". */
  function ParseClosePayload(p: seq<byte>): Option<CloseInfo>
  {
    if p == [] then Some(CloseInfo(CloseNoStatus, []))
    else if |p| < 2 then None
    else
      var code := BigEndian(p[..2]);
      if |p| > 2 then (if Utf8(p[2..]) then Some(CloseInfo(code, p[2..])) else None)
      else Some(CloseInfo(code, []))
  }

  /** Parsing a built close payload returns the code and reason. */
  lemma CloseRoundTrip(code: nat, reason: seq<byte>)
    requires 0 < code < 0x1_0000 && |reason| <= MaxCloseReason && Utf8(reason)
    ensures ParseClosePayload(BuildClosePayload(code, reason)) == Some(CloseInfo(code, reason))
  {
    var p := BuildClosePayload(code, reason);
    assert p[..2] == ToBigEndian(code, 2);
    BigEndianRoundTrip(code, 2);
    assert reason[..|reason|] == reason;
  }

  /** Code 0 builds an empty payload, which parses as "no status" (1005). */
  lemma CloseWithoutCode(reason: seq<byte>)
    ensures ParseClosePayload(BuildClosePayload(0, reason)) == Some(CloseInfo(CloseNoStatus, []))
  {
  }

  // ---------------------------------------------------------------------------
  // Encoding (the builder's output)
  // ---------------------------------------------------------------------------

  /** `calculate_frame_overhead`. */
  function FrameOverhead(payloadSize: nat, masked: bool): nat
  {
    2 + (if payloadSize >= 126 then (if payloadSize >= 65536 then 8 else 2) else 0)
      + (if masked then 4 else 0)
  }

  /** The second header byte and the extended length: 7, 16 or 64 bits. */
  function LengthBytes(len: nat, mask: bool): seq<byte>
  {
    var m := if mask then 0x80 else 0;
    if len < 126 then [m + len]
    else if len <= 65535 then [m + 126] + ToBigEndian(len, 2)
    else [m + 127] + ToBigEndian(len, 8)
  }

  /** `build_header`. */
  function EncodeHeader(opcode: Opcode, len: nat, fin: bool, mask: bool, key: nat): seq<byte>
  {
    [opcode + (if fin then 0x80 else 0)] + LengthBytes(len, mask) + (if mask then KeyBytes(key) else [])
  }

  /** The header is exactly as long as `calculate_frame_overhead` says. */
  lemma HeaderSize(opcode: Opcode, len: nat, fin: bool, mask: bool, key: nat)
    ensures |EncodeHeader(opcode, len, fin, mask, key)| == FrameOverhead(len, mask)
  {
  }

  /** `validate_payload_size` and `validate_control_frame_payload`. */
  predicate Encodable(maxFrameSize: nat, opcode: Opcode, size: nat)
  {
    size <= maxFrameSize && (opcode >= Close ==> size <= MaxControlPayload)
  }

  /** `build_frame`: the header then the (masked) payload; empty when the payload is refused. */
  function EncodeFrame(maxFrameSize: nat, opcode: Opcode, payload: seq<byte>, fin: bool, mask: bool, key: nat)
    : (bytes: seq<byte>)
    ensures !Encodable(maxFrameSize, opcode, |payload|) ==> bytes == []
    ensures Encodable(maxFrameSize, opcode, |payload|) ==>
      |bytes| == FrameOverhead(|payload|, mask) + |payload|
  {
    if !Encodable(maxFrameSize, opcode, |payload|) then []
    else
      HeaderSize(opcode, |payload|, fin, mask, key);
      EncodeHeader(opcode, |payload|, fin, mask, key) + (if mask then Mask(payload, key) else payload)
  }

  /**
   * The length field chosen: a 7-bit length below 126, the 126 marker and a
   * 16-bit length up to 65535, and otherwise the 127 marker and a 64-bit length.
   */
  lemma LengthEncoding(len: nat, mask: bool)
    requires len < LengthMsb
    ensures var lb := LengthBytes(len, mask);
      lb[0] / 128 == (if mask then 1 else 0) &&
      (len < 126 ==> |lb| == 1 && lb[0] % 128 == len) &&
      (126 <= len <= 65535 ==> |lb| == 3 && lb[0] % 128 == 126 && BigEndian(lb[1..]) == len) &&
      (len > 65535 ==> |lb| == 9 && lb[0] % 128 == 127 && BigEndian(lb[1..]) == len)
  {
    var lb := LengthBytes(len, mask);
    if 126 <= len <= 65535 {
      assert lb[1..] == ToBigEndian(len, 2);
      BigEndianRoundTrip(len, 2);
    } else if len > 65535 {
      assert lb[1..] == ToBigEndian(len, 8);
      assert Pow256(8) == 0x1_0000_0000_0000_0000;
      BigEndianRoundTrip(len, 8);
    }
  }

  // ---------------------------------------------------------------------------
  // Frame validation (`validate_frame`)
  // ---------------------------------------------------------------------------

  datatype Validation = Valid | InvalidOpcodeV | InvalidRsv | InvalidControlFrame | InvalidUtf8

  /** `WebSocketFrameUtils::validate_frame`: the first failing check decides. */
  function ValidateFrame(f: Frame): (r: Validation)
    ensures r == Valid <==>
      IsValidOpcode(f.opcode) && !f.rsv1 && !f.rsv2 && !f.rsv3 &&
      (IsControlOpcode(f.opcode) ==> f.fin && f.payloadLength <= MaxControlPayload) &&
      (f.opcode == Text ==> Utf8(f.payload))
  {
    if !IsValidOpcode(f.opcode) then InvalidOpcodeV
    else if f.rsv1 || f.rsv2 || f.rsv3 then InvalidRsv
    else if IsControlOpcode(f.opcode) && (!f.fin || f.payloadLength > MaxControlPayload) then InvalidControlFrame
    else if f.opcode == Text && !Utf8(f.payload) then InvalidUtf8
    else Valid
  }

  // ---------------------------------------------------------------------------
  // The parser state machine
  // ---------------------------------------------------------------------------

  datatype Stage = Header | ExtendedLength | MaskKey | Payload | Complete

  function Rank(s: Stage): nat
  {
    match s
    case Header => 0
    case ExtendedLength => 1
    case MaskKey => 2
    case Payload => 3
    case Complete => 4
  }

  datatype ParseResult =
    | Success | Incomplete
    | InvalidOpcode | InvalidLength | InvalidMask | ProtocolError | TooLarge

  /** The parser's settings: `max_frame_size_`, `require_masking_`, `validate_utf8_`. */
  datatype Config = Config(maxFrameSize: nat, requireMasking: bool, validateUtf8: bool)

  /** Which parser: the source as written, or with its four defects repaired. */
  datatype Variant = AsWritten | Corrected

  /** `state_`, `buffer_`, `current_frame_` and `bytes_needed_`. */
  datatype PState = PState(stage: Stage, buffer: seq<byte>, frame: Frame, bytesNeeded: nat)

  /** What a parse call or step leaves: new state, result and bytes it reports consumed. */
  datatype Outcome = Outcome(st: PState, result: ParseResult, consumed: nat)

  /** A constructed or reset parser. */
  const Fresh: PState := PState(Header, [], EmptyFrame, 2)

  /** Only the payload stages hold payload bytes, never more than announced. */
  predicate Wf(st: PState)
  {
    st.frame.payload == [] ||
    ((st.stage == Payload || st.stage == Complete) && |st.frame.payload| <= st.frame.payloadLength)
  }

  /** How many bytes `while (buffer_.size() < target && len > 0)` moves into the buffer. */
  function Take(buffered: nat, available: nat, target: nat): (n: nat)
    ensures n <= available
    ensures buffered + n >= target || n == available
  {
    if buffered >= target then 0 else Min(target - buffered, available)
  }

  /**
   * `parse_header`.  As written, a 7-bit length leaves `bytes_needed_` at its
   * previous value and the control-frame length check reads the length before
   * an extended length has been read; the corrected variant sets
   * `bytes_needed_` to 0 and checks the 7-bit length code itself.
   */
  function ParseHeader(v: Variant, c: Config, st: PState, data: seq<byte>): (o: Outcome)
    requires Wf(st) && st.stage == Header
    ensures Wf(o.st) && o.consumed <= |data|
    ensures o.result == Success ==> Rank(o.st.stage) > Rank(st.stage)
    ensures o.st.frame.payload == st.frame.payload
    ensures o.result == Success ==> IsValidOpcode(o.st.frame.opcode) && (c.requireMasking ==> o.st.frame.masked)
    ensures v == Corrected && o.result == Success && IsControlOpcode(o.st.frame.opcode) ==>
              o.st.frame.fin && o.st.stage != ExtendedLength && o.st.frame.payloadLength <= MaxControlPayload
  {
    var n := Take(|st.buffer|, |data|, 2);
    var buf := st.buffer + data[..n];
    if |buf| < 2 then Outcome(st.(buffer := buf), Incomplete, n)
    else
      var b1, b2 := buf[0], buf[1];
      var f := st.frame.(fin := b1 >= 0x80, rsv1 := (b1 / 0x40) % 2 == 1, rsv2 := (b1 / 0x20) % 2 == 1,
                         rsv3 := (b1 / 0x10) % 2 == 1, opcode := b1 % 0x10);
      if !IsValidOpcode(f.opcode) then Outcome(st.(buffer := buf, frame := f), InvalidOpcode, n)
      else
        var f := f.(masked := b2 >= 0x80);
        var len7 := b2 % 0x80;
        if c.requireMasking && !f.masked then Outcome(st.(buffer := buf, frame := f), InvalidMask, n)
        else
          var st1 :=
            if len7 < 126 then
              PState(if f.masked then MaskKey else Payload, buf, f.(payloadLength := len7),
                     if v == AsWritten then st.bytesNeeded else 0)
            else if len7 == 126 then PState(ExtendedLength, buf, f, 2)
            else PState(ExtendedLength, buf, f, 8);
          var tooLong := if v == AsWritten then st1.frame.payloadLength > MaxControlPayload else len7 > MaxControlPayload;
          if IsControlOpcode(f.opcode) && (!f.fin || tooLong) then Outcome(st1, ProtocolError, n)
          else Outcome(st1, Success, n)
  }

  /** The size check at the end of `parse_extended_length`. */
  function CheckSize(c: Config, st: PState, n: nat): (o: Outcome)
  {
    if st.frame.payloadLength > c.maxFrameSize then Outcome(st, TooLarge, n)
    else Outcome(st.(stage := if st.frame.masked then MaskKey else Payload), Success, n)
  }

  /** `parse_extended_length`: minimal encodings only, and no 64-bit length with the top bit set. */
  function ParseExtendedLength(c: Config, st: PState, data: seq<byte>): (o: Outcome)
    requires Wf(st) && st.stage == ExtendedLength
    ensures Wf(o.st) && o.consumed <= |data|
    ensures o.result == Success ==> Rank(o.st.stage) > Rank(st.stage)
  {
    var n := Take(|st.buffer|, |data|, 2 + st.bytesNeeded);
    var buf := st.buffer + data[..n];
    var st0 := st.(buffer := buf);
    if |buf| < 2 + st.bytesNeeded then Outcome(st0, Incomplete, n)
    else if st.bytesNeeded == 2 then
      var len := BigEndian(buf[2..4]);
      var st1 := st0.(frame := st.frame.(payloadLength := len));
      if len < 126 then Outcome(st1, ProtocolError, n)
      else CheckSize(c, st1, n)
    else if st.bytesNeeded == 8 then
      var len := BigEndian(buf[2..10]);
      var st1 := st0.(frame := st.frame.(payloadLength := len));
      if len < 65536 then Outcome(st1, ProtocolError, n)
      else if len >= LengthMsb then Outcome(st1, InvalidLength, n)
      else CheckSize(c, st1, n)
    else CheckSize(c, st0, n)
  }

  /** `parse_mask`: four key bytes after a header of `2 + bytes_needed_` bytes. */
  function ParseMask(st: PState, data: seq<byte>): (o: Outcome)
    requires Wf(st) && st.stage == MaskKey
    ensures Wf(o.st) && o.consumed <= |data|
    ensures o.result == Success ==> Rank(o.st.stage) > Rank(st.stage)
  {
    var h := 2 + st.bytesNeeded;
    var n := Take(|st.buffer|, |data|, h + 4);
    var buf := st.buffer + data[..n];
    if |buf| < h + 4 then Outcome(st.(buffer := buf), Incomplete, n)
    else Outcome(st.(stage := Payload, buffer := buf, frame := st.frame.(maskKey := BigEndian(buf[h..h + 4]))),
                 Success, n)
  }

  /** `parse_payload`: copy what is missing, then unmask and check the text once complete. */
  function ParsePayload(c: Config, st: PState, data: seq<byte>): (o: Outcome)
    requires Wf(st) && st.stage == Payload
    ensures Wf(o.st) && o.consumed <= |data|
    ensures o.result == Success && o.st.stage != Complete ==> o.consumed == |data|
    ensures o.result == Success && |st.frame.payload| == st.frame.payloadLength ==> o.st.stage == Complete
  {
    var remaining := st.frame.payloadLength - |st.frame.payload|;
    var n := Min(remaining, |data|);
    var p := st.frame.payload + data[..n];
    if |p| == st.frame.payloadLength then
      var f := st.frame.(payload := if st.frame.masked then Mask(p, st.frame.maskKey) else p);
      if c.validateUtf8 && f.opcode == Text && !Utf8(f.payload) then Outcome(st.(frame := f), InvalidLength, n)
      else Outcome(st.(stage := Complete, frame := f), Success, n)
    else Outcome(st.(frame := st.frame.(payload := p)), Success, n)
  }

  /** One iteration of the `parse` loop. */
  function Step(v: Variant, c: Config, st: PState, data: seq<byte>): (o: Outcome)
    requires Wf(st) && st.stage != Complete
    ensures Wf(o.st) && o.consumed <= |data|
    ensures o.result != Success ==> o.st.stage != Complete
  {
    match st.stage
    case Header => ParseHeader(v, c, st, data)
    case ExtendedLength => ParseExtendedLength(c, st, data)
    case MaskKey => ParseMask(st, data)
    case Payload => ParsePayload(c, st, data)
  }

  /** The payload is complete but the parser has not yet noticed. */
  predicate Ready(st: PState)
  {
    st.stage == Payload && |st.frame.payload| == st.frame.payloadLength
  }

  /**
   * The loop condition of `parse`.  As written the loop stops when the input
   * is exhausted, so a frame whose payload is empty never completes; the
   * corrected loop also runs the payload step when nothing is missing.
   */
  predicate Continues(v: Variant, st: PState, data: seq<byte>)
  {
    st.stage != Complete && (|data| > 0 || (v == Corrected && Ready(st)))
  }

  lemma StepProgress(v: Variant, c: Config, st: PState, data: seq<byte>)
    requires Wf(st) && Continues(v, st, data)
    ensures var o := Step(v, c, st, data);
      o.result == Success ==> o.consumed > 0 || Rank(o.st.stage) > Rank(st.stage)
  {
  }

  /** What `parse` adds to `bytes_consumed` for a step that did not succeed. */
  function Counted(v: Variant, o: Outcome): (n: nat)
    ensures n <= o.consumed
  {
    if v == Corrected && o.result == Incomplete then o.consumed else 0
  }

  /**
   * `WebSocketFrameParser::parse`: steps until the frame is complete, the input
   * runs out, or a step fails.  As written, a step that returns "incomplete"
   * keeps the bytes it buffered but they are not counted in `consumed`, so a
   * caller that advances by `consumed` hands them over a second time; the
   * corrected variant counts them.  Bytes buffered by a step that fails with
   * an error are not counted in either variant.
   */
  function Run(v: Variant, c: Config, st: PState, data: seq<byte>): (o: Outcome)
    requires Wf(st)
    ensures Wf(o.st) && o.consumed <= |data|
    ensures o.result == Success <==> o.st.stage == Complete
    decreases |data|, 4 - Rank(st.stage)
  {
    if !Continues(v, st, data) then Outcome(st, if st.stage == Complete then Success else Incomplete, 0)
    else
      var o := Step(v, c, st, data);
      StepProgress(v, c, st, data);
      if o.result != Success then Outcome(o.st, o.result, Counted(v, o))
      else
        var r := Run(v, c, o.st, data[o.consumed..]);
        Outcome(r.st, r.result, o.consumed + r.consumed)
  }
}
