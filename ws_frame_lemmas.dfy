/**
 * What the parser state machine does on encoded frames: the corrected parser
 * reads back every frame the builder can produce, and concrete inputs on
 * which the parser as written goes wrong.
 */
module WsFrameLemmas {
  import opened Bytes
  import opened Seqs
  import opened WsFrame

  /** Running on a state whose payload is complete stops there. */
  lemma RunComplete(v: Variant, c: Config, st: PState, data: seq<byte>)
    requires Wf(st) && st.stage == Complete
    ensures Run(v, c, st, data) == Outcome(st, Success, 0)
  {
  }

  /** The payload stage with the whole payload at hand completes the frame and stops. */
  lemma RunPayload(c: Config, st: PState, data: seq<byte>, more: seq<byte>)
    requires Wf(st) && st.stage == Payload && st.frame.payload == [] && st.frame.payloadLength == |data|
    requires c.validateUtf8 && st.frame.opcode == Text ==>
      Utf8(if st.frame.masked then Mask(data, st.frame.maskKey) else data)
    ensures Run(Corrected, c, st, data + more) ==
      Outcome(st.(stage := Complete,
                  frame := st.frame.(payload := if st.frame.masked then Mask(data, st.frame.maskKey) else data)),
              Success, |data|)
  {
    var all := data + more;
    assert [] + all[..|data|] == data;
    var o := ParsePayload(c, st, all);
    assert o.consumed == |data| && o.result == Success;
    RunComplete(Corrected, c, o.st, all[|data|..]);
  }

  /** The mask stage with the four key bytes at hand moves on to the payload. */
  lemma RunMask(c: Config, st: PState, data: seq<byte>)
    requires Wf(st) && st.stage == MaskKey && |st.buffer| == 2 + st.bytesNeeded && |data| >= 4
    ensures var st' := st.(stage := Payload, buffer := st.buffer + data[..4],
                           frame := st.frame.(maskKey := BigEndian(data[..4])));
      Wf(st') &&
      var r := Run(Corrected, c, st', data[4..]);
      Run(Corrected, c, st, data) == Outcome(r.st, r.result, 4 + r.consumed)
  {
    var h := 2 + st.bytesNeeded;
    var buf := st.buffer + data[..4];
    assert buf[h..h + 4] == data[..4];
  }

  /** The extended-length stage with a minimal, acceptable length moves on. */
  lemma RunExtended(c: Config, st: PState, data: seq<byte>)
    requires Wf(st) && st.stage == ExtendedLength && |st.buffer| == 2
    requires st.bytesNeeded == 2 || st.bytesNeeded == 8
    requires |data| >= st.bytesNeeded
    requires var len := BigEndian(data[..st.bytesNeeded]);
      (if st.bytesNeeded == 2 then len >= 126 else 65536 <= len < LengthMsb) && len <= c.maxFrameSize
    ensures var bn := st.bytesNeeded;
      var st' := PState(if st.frame.masked then MaskKey else Payload, st.buffer + data[..bn],
                        st.frame.(payloadLength := BigEndian(data[..bn])), bn);
      Wf(st') &&
      var r := Run(Corrected, c, st', data[bn..]);
      Run(Corrected, c, st, data) == Outcome(r.st, r.result, bn + r.consumed)
  {
    var bn := st.bytesNeeded;
    var buf := st.buffer + data[..bn];
    assert buf[2..2 + bn] == data[..bn];
  }

  /** The first header byte carries FIN in its top bit and the opcode in its low nibble. */
  lemma FirstByte(op: Opcode, fin: bool)
    ensures var b1 := op + (if fin then 0x80 else 0);
      (b1 >= 0x80 <==> fin) && (b1 / 0x40) % 2 == 0 && (b1 / 0x20) % 2 == 0 &&
      (b1 / 0x10) % 2 == 0 && b1 % 0x10 == op
  {
  }

  /** The stage after the length has been read: the key, or straight to the payload. */
  lemma RunAfterLength(c: Config, st: PState, key: nat, payload: seq<byte>, more: seq<byte>)
    requires Wf(st) && st.frame.payload == [] && st.frame.payloadLength == |payload|
    requires st.stage == (if st.frame.masked then MaskKey else Payload)
    requires |st.buffer| == 2 + st.bytesNeeded && st.frame.maskKey == 0 && key < KeyLimit
    requires c.validateUtf8 && st.frame.opcode == Text ==> Utf8(payload)
    ensures var data := if st.frame.masked then KeyBytes(key) + Mask(payload, key) else payload;
      var o := Run(Corrected, c, st, data + more);
      o.result == Success && o.consumed == |data| && o.st.stage == Complete &&
      o.st.frame == st.frame.(maskKey := if st.frame.masked then key else 0, payload := payload)
  {
    if st.frame.masked {
      var data := KeyBytes(key) + Mask(payload, key) + more;
      assert data[..4] == KeyBytes(key) && data[4..] == Mask(payload, key) + more;
      assert Pow256(4) == KeyLimit;
      BigEndianRoundTrip(key, 4);
      RunMask(c, st, data);
      var st' := st.(stage := Payload, buffer := st.buffer + data[..4], frame := st.frame.(maskKey := key));
      MaskTwice(payload, key);
      RunPayload(c, st', Mask(payload, key), more);
    } else {
      RunPayload(c, st, payload, more);
    }
  }

  /** The parser state right after the header of an encoded frame. */
  function AfterHeader(op: Opcode, fin: bool, mask: bool, len: nat): PState
  {
    var lb := LengthBytes(len, mask);
    var f := Frame(fin, false, false, false, op, mask, len, 0, []);
    if len < 126 then PState(if mask then MaskKey else Payload, [op + (if fin then 0x80 else 0), lb[0]], f, 0)
    else PState(ExtendedLength, [op + (if fin then 0x80 else 0), lb[0]], f.(payloadLength := 0), |lb| - 1)
  }

  /** The header step on an encoded frame: two bytes, and the fields they carry. */
  lemma HeaderStep(c: Config, op: Opcode, fin: bool, mask: bool, len: nat, rest: seq<byte>)
    requires IsValidOpcode(op) && len < LengthMsb
    requires IsControlOpcode(op) ==> fin && len <= MaxControlPayload
    requires c.requireMasking ==> mask
    ensures var lb := LengthBytes(len, mask);
      var bytes := [op + (if fin then 0x80 else 0), lb[0]] + rest;
      var r := Run(Corrected, c, AfterHeader(op, fin, mask, len), rest);
      Wf(AfterHeader(op, fin, mask, len)) &&
      Run(Corrected, c, Fresh, bytes) == Outcome(r.st, r.result, 2 + r.consumed)
  {
    var lb := LengthBytes(len, mask);
    var bytes := [op + (if fin then 0x80 else 0), lb[0]] + rest;
    FirstByte(op, fin);
    LengthEncoding(len, mask);
    assert bytes[..2] == [op + (if fin then 0x80 else 0), lb[0]];
    assert ParseHeader(Corrected, c, Fresh, bytes) == Outcome(AfterHeader(op, fin, mask, len), Success, 2);
    assert bytes[2..] == rest;
  }

  /** `RoundTrip` for payloads below 126 bytes: a 7-bit length. */
  lemma RoundTripShort(c: Config, op: Opcode, payload: seq<byte>, fin: bool, mask: bool, key: nat, more: seq<byte>)
    requires IsValidOpcode(op) && key < KeyLimit && |payload| < 126
    requires Encodable(c.maxFrameSize, op, |payload|)
    requires IsControlOpcode(op) ==> fin
    requires c.requireMasking ==> mask
    requires c.validateUtf8 && op == Text ==> Utf8(payload)
    ensures var bytes := EncodeFrame(c.maxFrameSize, op, payload, fin, mask, key);
      var o := Run(Corrected, c, Fresh, bytes + more);
      o.result == Success && o.consumed == |bytes| && o.st.stage == Complete &&
      o.st.frame == Frame(fin, false, false, false, op, mask, |payload|, if mask then key else 0, payload)
  {
    var len := |payload|;
    var lb := LengthBytes(len, mask);
    var tail := if mask then KeyBytes(key) + Mask(payload, key) else payload;
    assert lb[1..] == [];
    assert EncodeFrame(c.maxFrameSize, op, payload, fin, mask, key) + more
      == [op + (if fin then 0x80 else 0), lb[0]] + (tail + more);
    HeaderStep(c, op, fin, mask, len, tail + more);
    RunAfterLength(c, AfterHeader(op, fin, mask, len), key, payload, more);
  }

  /** `RoundTrip` for payloads of 126 bytes or more: a 16- or 64-bit length. */
  lemma RoundTripLong(c: Config, op: Opcode, payload: seq<byte>, fin: bool, mask: bool, key: nat, more: seq<byte>)
    requires IsValidOpcode(op) && key < KeyLimit && 126 <= |payload| < LengthMsb
    requires Encodable(c.maxFrameSize, op, |payload|)
    requires c.requireMasking ==> mask
    requires c.validateUtf8 && op == Text ==> Utf8(payload)
    ensures var bytes := EncodeFrame(c.maxFrameSize, op, payload, fin, mask, key);
      var o := Run(Corrected, c, Fresh, bytes + more);
      o.result == Success && o.consumed == |bytes| && o.st.stage == Complete &&
      o.st.frame == Frame(fin, false, false, false, op, mask, |payload|, if mask then key else 0, payload)
  {
    var len := |payload|;
    var lb := LengthBytes(len, mask);
    var tail := if mask then KeyBytes(key) + Mask(payload, key) else payload;
    var tailMore := tail + more;
    var afterHeader := lb[1..] + tailMore;
    assert EncodeFrame(c.maxFrameSize, op, payload, fin, mask, key) + more
      == [op + (if fin then 0x80 else 0), lb[0]] + afterHeader;
    HeaderStep(c, op, fin, mask, len, afterHeader);
    ExtendedThenRest(c, op, payload, fin, mask, key, more);
  }

  /** From just after the header of a frame with an extended length to its end. */
  lemma ExtendedThenRest(c: Config, op: Opcode, payload: seq<byte>, fin: bool, mask: bool, key: nat, more: seq<byte>)
    requires IsValidOpcode(op) && key < KeyLimit && 126 <= |payload| < LengthMsb
    requires |payload| <= c.maxFrameSize
    requires c.validateUtf8 && op == Text ==> Utf8(payload)
    ensures var lb := LengthBytes(|payload|, mask);
      var tail := if mask then KeyBytes(key) + Mask(payload, key) else payload;
      var o := Run(Corrected, c, AfterHeader(op, fin, mask, |payload|), lb[1..] + (tail + more));
      Wf(AfterHeader(op, fin, mask, |payload|)) &&
      o.result == Success && o.consumed == |lb| - 1 + |tail| && o.st.stage == Complete &&
      o.st.frame == Frame(fin, false, false, false, op, mask, |payload|, if mask then key else 0, payload)
  {
    var len := |payload|;
    var lb := LengthBytes(len, mask);
    var tail := if mask then KeyBytes(key) + Mask(payload, key) else payload;
    var tailMore := tail + more;
    var afterHeader := lb[1..] + tailMore;
    var st := AfterHeader(op, fin, mask, len);
    LengthEncoding(len, mask);
    var e := |lb| - 1;
    assert afterHeader[..e] == lb[1..] && afterHeader[e..] == tailMore;
    RunExtended(c, st, afterHeader);
    var st' := PState(if mask then MaskKey else Payload, st.buffer + lb[1..],
                      Frame(fin, false, false, false, op, mask, len, 0, []), e);
    RunAfterLength(c, st', key, payload, more);
  }

  /**
   * The corrected parser reads back every frame the builder produces: it
   * consumes exactly the frame's encoding, whatever input follows it, and the
   * frame has the opcode, FIN bit, mask key and payload that were encoded.
   */
  lemma RoundTrip(c: Config, op: Opcode, payload: seq<byte>, fin: bool, mask: bool, key: nat, more: seq<byte>)
    requires IsValidOpcode(op) && key < KeyLimit
    requires Encodable(c.maxFrameSize, op, |payload|) && |payload| < LengthMsb
    requires IsControlOpcode(op) ==> fin
    requires c.requireMasking ==> mask
    requires c.validateUtf8 && op == Text ==> Utf8(payload)
    ensures var bytes := EncodeFrame(c.maxFrameSize, op, payload, fin, mask, key);
      var o := Run(Corrected, c, Fresh, bytes + more);
      o.result == Success && o.consumed == |bytes| && o.st.stage == Complete &&
      o.st.frame == Frame(fin, false, false, false, op, mask, |payload|, if mask then key else 0, payload)
  {
    if |payload| < 126 {
      RoundTripShort(c, op, payload, fin, mask, key, more);
    } else {
      RoundTripLong(c, op, payload, fin, mask, key, more);
    }
  }

  // ---------------------------------------------------------------------------
  // The parser as written
  // ---------------------------------------------------------------------------

  /** The header step as written on a frame with a 7-bit length: `bytes_needed_` stays 2. */
  lemma HeaderStepAsWritten(c: Config, op: Opcode, fin: bool, mask: bool, len: nat, rest: seq<byte>)
    requires IsValidOpcode(op) && len < 126
    requires IsControlOpcode(op) ==> fin
    requires c.requireMasking ==> mask
    ensures var bytes := [op + (if fin then 0x80 else 0), (if mask then 0x80 else 0) + len] + rest;
      var st := PState(if mask then MaskKey else Payload, bytes[..2],
                       Frame(fin, false, false, false, op, mask, len, 0, []), 2);
      var r := Run(AsWritten, c, st, rest);
      Wf(st) && Run(AsWritten, c, Fresh, bytes) == Outcome(r.st, r.result, 2 + r.consumed)
  {
    var bytes := [op + (if fin then 0x80 else 0), (if mask then 0x80 else 0) + len] + rest;
    FirstByte(op, fin);
    var b2 := (if mask then 0x80 else 0) + len;
    assert bytes[..2] == [op + (if fin then 0x80 else 0), b2];
    assert (b2 >= 0x80 <==> mask) && b2 % 0x80 == len;
    var st := PState(if mask then MaskKey else Payload, bytes[..2],
                     Frame(fin, false, false, false, op, mask, len, 0, []), 2);
    assert ParseHeader(AsWritten, c, Fresh, bytes) == Outcome(st, Success, 2);
    assert bytes[2..] == rest;
  }

  /**
   * As written, no masked frame with a payload below 126 bytes is ever parsed:
   * the key is looked for two bytes too late (`bytes_needed_` still holds its
   * initial 2), two payload bytes are taken as key bytes, and the parser waits
   * for input that the frame does not have.
   */
  lemma MaskedShortFrameIncomplete(c: Config, op: Opcode, payload: seq<byte>, fin: bool, key: nat)
    requires IsValidOpcode(op) && |payload| < 126
    requires Encodable(c.maxFrameSize, op, |payload|)
    requires IsControlOpcode(op) ==> fin
    ensures Run(AsWritten, c, Fresh, EncodeFrame(c.maxFrameSize, op, payload, fin, true, key)).result == Incomplete
  {
    var len := |payload|;
    var rest := KeyBytes(key) + Mask(payload, key);
    assert EncodeFrame(c.maxFrameSize, op, payload, fin, true, key) == [op + 0x80 * (if fin then 1 else 0), 0x80 + len] + rest;
    HeaderStepAsWritten(c, op, fin, true, len, rest);
    var st := PState(MaskKey, [op + (if fin then 0x80 else 0), 0x80 + len],
                     Frame(fin, false, false, false, op, true, len, 0, []), 2);
    MaskStageStalls(c, st, rest);
  }

  /**
   * The mask stage as written, two bytes into a frame whose key and payload
   * are exactly the rest of the input: looking for the key at offset 4, it
   * never gathers the whole payload.
   */
  lemma MaskStageStalls(c: Config, st: PState, rest: seq<byte>)
    requires Wf(st) && st.stage == MaskKey && st.bytesNeeded == 2 && |st.buffer| == 2
    requires st.frame.payload == [] && |rest| == 4 + st.frame.payloadLength
    ensures Run(AsWritten, c, st, rest).result == Incomplete
  {
    var m := ParseMask(st, rest);
    if |rest| >= 6 {
      assert m.result == Success && m.consumed == 6 && m.st.stage == Payload && m.st.frame.payload == [];
      var left := rest[6..];
      if left != [] {
        var p := ParsePayload(c, m.st, left);
        assert p.result == Success && p.consumed == |left| && p.st.stage == Payload;
        assert left[|left|..] == [];
        assert Run(AsWritten, c, p.st, []).result == Incomplete;
      }
      assert Run(AsWritten, c, m.st, left).result == Incomplete;
    } else {
      assert m.result == Incomplete;
    }
  }

  /**
   * As written, no unmasked frame with an empty payload is ever completed: the
   * parse loop ends when the input is exhausted, before the payload stage can
   * notice that nothing is missing.
   */
  lemma EmptyFrameIncomplete(c: Config, op: Opcode, fin: bool)
    requires IsValidOpcode(op) && c.maxFrameSize >= 0 && !c.requireMasking
    requires IsControlOpcode(op) ==> fin
    ensures EncodeFrame(c.maxFrameSize, op, [], fin, false, 0) == [op + (if fin then 0x80 else 0), 0x00]
    ensures Run(AsWritten, c, Fresh, EncodeFrame(c.maxFrameSize, op, [], fin, false, 0)).result == Incomplete
    ensures Run(Corrected, c, Fresh, EncodeFrame(c.maxFrameSize, op, [], fin, false, 0)).result == Success
  {
    var bytes := EncodeFrame(c.maxFrameSize, op, [], fin, false, 0);
    assert bytes == [op + (if fin then 0x80 else 0), 0x00] + [];
    HeaderStepAsWritten(c, op, fin, false, 0, []);
    assert bytes + [] == bytes;
    RoundTrip(c, op, [], fin, false, 0, []);
  }

  /**
   * A ping announcing a 200-byte payload through the 16-bit length.  Control
   * frames may carry at most 125 bytes, but as written the header check reads
   * the length before the extended length is known and lets it through; the
   * corrected parser refuses it at once.
   */
  lemma LongPingAccepted(c: Config)
    requires c.maxFrameSize >= 200 && !c.requireMasking
    ensures Run(AsWritten, c, Fresh, [0x89, 0x7E, 0x00, 0xC8]).result == Incomplete
    ensures Run(Corrected, c, Fresh, [0x89, 0x7E, 0x00, 0xC8]).result == ProtocolError
  {
    var bytes: seq<byte> := [0x89, 0x7E, 0x00, 0xC8];
    FirstByte(Ping, true);
    assert bytes[..2] == [0x89, 0x7E] && bytes[2..] == [0x00, 0xC8];
    var st := PState(ExtendedLength, [0x89, 0x7E], Frame(true, false, false, false, Ping, false, 0, 0, []), 2);
    assert ParseHeader(AsWritten, c, Fresh, bytes) == Outcome(st, Success, 2);
    var rest: seq<byte> := [0x00, 0xC8];
    assert rest[..2] == rest && rest[..1] == [0x00] && [0x00][..0] == [];
    assert BigEndian([0x00]) == 0;
    assert BigEndian(rest) == 200;
    assert st.buffer + rest[..2] == bytes && bytes[2..4] == rest;
    var x := ParseExtendedLength(c, st, rest);
    assert x.result == Success && x.consumed == 2 && x.st.stage == Payload;
    assert rest[2..] == [];
  }

  /** Bytes a state holds: its header buffer and the payload gathered so far. */
  function Held(st: PState): nat
  {
    |st.buffer| + |st.frame.payload|
  }

  /** A step that succeeds or waits for input has taken exactly `consumed` bytes. */
  lemma StepAbsorbs(v: Variant, c: Config, st: PState, data: seq<byte>)
    requires Wf(st) && st.stage != Complete
    ensures var o := Step(v, c, st, data);
      o.result == Success || o.result == Incomplete ==> Held(o.st) == Held(st) + o.consumed
  {
  }

  /**
   * The corrected parser reports as consumed exactly the bytes it has taken
   * into its state, so a caller that advances by that count never hands the
   * same byte over twice.
   */
  lemma {:induction false} ConsumedIsAbsorbed(c: Config, st: PState, data: seq<byte>)
    requires Wf(st)
    ensures var o := Run(Corrected, c, st, data);
      o.result == Success || o.result == Incomplete ==> Held(o.st) == Held(st) + o.consumed
    decreases |data|, 4 - Rank(st.stage)
  {
    if Continues(Corrected, st, data) {
      var o := Step(Corrected, c, st, data);
      StepAbsorbs(Corrected, c, st, data);
      StepProgress(Corrected, c, st, data);
      if o.result == Success {
        ConsumedIsAbsorbed(c, o.st, data[o.consumed..]);
      }
    }
  }

  /**
   * As written, three bytes of a frame with a 16-bit length are all taken into
   * the buffer but only two are reported consumed.  Handing the third byte
   * over again, as `process_data` does when it advances by the reported count,
   * makes the parser read the length 0x0101 from the bytes 0x01, 0x01.
   */
  lemma IncompleteUndercounts(c: Config)
    requires !c.requireMasking
    ensures var o := Run(AsWritten, c, Fresh, [0x82, 0x7E, 0x01]);
      o.result == Incomplete && o.consumed == 2 && o.st.buffer == [0x82, 0x7E, 0x01] &&
      Held(o.st) == Held(Fresh) + 3 &&
      Run(AsWritten, c, o.st, [0x01]).st.frame.payloadLength == 0x0101
    ensures var o := Run(Corrected, c, Fresh, [0x82, 0x7E, 0x01]);
      o.result == Incomplete && o.consumed == 3
  {
    var bytes: seq<byte> := [0x82, 0x7E, 0x01];
    FirstByte(Binary, true);
    assert bytes[..2] == [0x82, 0x7E] && bytes[2..] == [0x01];
    var st := PState(ExtendedLength, [0x82, 0x7E], Frame(true, false, false, false, Binary, false, 0, 0, []), 2);
    assert ParseHeader(AsWritten, c, Fresh, bytes) == Outcome(st, Success, 2);
    assert ParseHeader(Corrected, c, Fresh, bytes) == Outcome(st, Success, 2);
    var rest: seq<byte> := [0x01];
    assert rest[..1] == rest;
    var x := ParseExtendedLength(c, st, rest);
    assert x.result == Incomplete && x.consumed == 1 && x.st.buffer == bytes;
    var again: seq<byte> := [0x01];
    assert again[..1] == again;
    var buf2: seq<byte> := [0x82, 0x7E, 0x01, 0x01];
    assert buf2[2..4] == [0x01, 0x01] && [0x01, 0x01][..1] == [0x01] && [0x01][..0] == [];
    assert BigEndian([0x01, 0x01]) == 0x0101;
    assert x.st.buffer + again[..1] == buf2;
    var y := ParseExtendedLength(c, x.st, again);
    assert y.st.frame.payloadLength == 0x0101;
  }
}
