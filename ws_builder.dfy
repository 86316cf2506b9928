/**
 * `WebSocketFrameBuilder`: builds the bytes of a frame.  Each method is proved
 * to produce `EncodeFrame` of its arguments, which the corrected parser reads
 * back (WsFrameLemmas.RoundTrip).  The random mask key the source draws when
 * automatic masking is on is a constructor argument here.
 */
module WsBuilder {
  import opened Bytes
  import opened WsFrame

  /** `write_big_endian_64`: the byte `value >> (8 * i)` for `i` from `width - 1` down to 0. */
  method WriteBigEndian(buffer: seq<byte>, value: nat, width: nat) returns (out: seq<byte>)
    ensures out == buffer + ToBigEndian(value, width)
  {
    out := buffer;
    var i := width;
    while i > 0
      invariant 0 <= i <= width
      invariant out == buffer + ToBigEndian(ShiftBytes(value, i), width - i)
    {
      i := i - 1;
      var x := ShiftBytes(value, i);
      assert ToBigEndian(x, width - i) == ToBigEndian(x / 256, width - i - 1) + [x % 256];
      out := out + [x % 256];
    }
    assert ShiftBytes(value, 0) == value;
  }

  /** `mask_payload_inplace`. */
  method MaskPayloadInPlace(a: array<byte>, key: nat)
    modifies a
    ensures a[..] == Mask(old(a[..]), key)
  {
    var kb := [(key / 0x100_0000) % 256, (key / 0x1_0000) % 256, (key / 0x100) % 256, key % 256];
    KeyBytesShifts(key);
    var i := 0;
    while i < a.Length
      invariant 0 <= i <= a.Length
      invariant forall j :: 0 <= j < i ==> a[j] == XorB(old(a[j]), kb[j % 4])
      invariant forall j :: i <= j < a.Length ==> a[j] == old(a[j])
    {
      a[i] := XorB(a[i], kb[i % 4]);
      i := i + 1;
    }
  }

  /** `build_header`. */
  method BuildHeader(opcode: Opcode, len: nat, fin: bool, mask: bool, key: nat) returns (header: seq<byte>)
    ensures header == EncodeHeader(opcode, len, fin, mask, key)
  {
    header := [opcode + (if fin then 0x80 else 0)];
    var byte2 := if mask then 0x80 else 0;
    if len < 126 {
      header := header + [byte2 + len];
    } else if len <= 65535 {
      header := header + [byte2 + 126];
      header := header + [(len / 256) % 256, len % 256];
      assert ToBigEndian(len, 2) == [(len / 256) % 256, len % 256] by {
        assert ToBigEndian(len / 256, 1) == [(len / 256) % 256];
      }
    } else {
      header := header + [byte2 + 127];
      header := WriteBigEndian(header, len, 8);
    }
    if mask {
      KeyBytesShifts(key);
      header := header + [(key / 0x100_0000) % 256, (key / 0x1_0000) % 256, (key / 0x100) % 256, key % 256];
    }
  }

  class FrameBuilder {
    const autoMask: bool
    const maskKey: nat
    const maxFrameSize: nat

    /** With automatic masking the builder keeps `generatedKey` as its key, else 0. */
    constructor(autoMask: bool, maxFrameSize: nat, generatedKey: nat)
      ensures this.autoMask == autoMask && this.maxFrameSize == maxFrameSize
      ensures maskKey == (if autoMask then generatedKey else 0)
    {
      this.autoMask := autoMask;
      this.maxFrameSize := maxFrameSize;
      this.maskKey := if autoMask then generatedKey else 0;
    }

    /** `build_frame`: refuses oversize and long control payloads with an empty result. */
    method BuildFrame(opcode: Opcode, payload: seq<byte>, fin: bool, mask: bool, key: nat) returns (bytes: seq<byte>)
      ensures bytes == EncodeFrame(maxFrameSize, opcode, payload, fin, mask, key)
    {
      if |payload| > maxFrameSize {
        return [];
      }
      if opcode >= Close && |payload| > MaxControlPayload {
        return [];
      }
      bytes := BuildHeader(opcode, |payload|, fin, mask, key);
      if |payload| > 0 {
        if mask {
          var masked := new byte[|payload|](i requires 0 <= i < |payload| => payload[i]);
          assert masked[..] == payload;
          MaskPayloadInPlace(masked, key);
          bytes := bytes + masked[..];
        } else {
          bytes := bytes + payload;
        }
      } else {
        assert Mask(payload, key) == payload;
      }
    }

    /** `build_frame(const ws_frame&)`. */
    method BuildFrameOf(f: Frame) returns (bytes: seq<byte>)
      ensures bytes == EncodeFrame(maxFrameSize, f.opcode, f.payload, f.fin, f.masked, f.maskKey)
    {
      bytes := BuildFrame(f.opcode, f.payload, f.fin, f.masked, f.maskKey);
    }

    /** The masking decision of every typed builder: asked for, or automatic. */
    function MaskingOf(mask: bool, key: nat): (r: (bool, nat))
      ensures r.0 <==> mask || autoMask
      ensures r.1 == (if mask then key else maskKey)
    {
      (mask || autoMask, if mask then key else maskKey)
    }

    /** `build_text_frame`. */
    method BuildTextFrame(text: seq<byte>, fin: bool, mask: bool, key: nat) returns (bytes: seq<byte>)
      ensures bytes == EncodeFrame(maxFrameSize, Text, text, fin, MaskingOf(mask, key).0, MaskingOf(mask, key).1)
    {
      var m := MaskingOf(mask, key);
      bytes := BuildFrame(Text, text, fin, m.0, m.1);
    }

    /** `build_binary_frame`. */
    method BuildBinaryFrame(data: seq<byte>, fin: bool, mask: bool, key: nat) returns (bytes: seq<byte>)
      ensures bytes == EncodeFrame(maxFrameSize, Binary, data, fin, MaskingOf(mask, key).0, MaskingOf(mask, key).1)
    {
      var m := MaskingOf(mask, key);
      bytes := BuildFrame(Binary, data, fin, m.0, m.1);
    }

    /** `build_continuation_frame`. */
    method BuildContinuationFrame(data: seq<byte>, fin: bool, mask: bool, key: nat) returns (bytes: seq<byte>)
      ensures bytes == EncodeFrame(maxFrameSize, Continuation, data, fin, MaskingOf(mask, key).0, MaskingOf(mask, key).1)
    {
      var m := MaskingOf(mask, key);
      bytes := BuildFrame(Continuation, data, fin, m.0, m.1);
    }

    /** `build_close_frame`: the close payload of `code` and `reason`, always final. */
    method BuildCloseFrame(code: nat, reason: seq<byte>, mask: bool, key: nat) returns (bytes: seq<byte>)
      requires code < 0x1_0000
      ensures bytes == EncodeFrame(maxFrameSize, Close, BuildClosePayload(code, reason), true,
                                   MaskingOf(mask, key).0, MaskingOf(mask, key).1)
    {
      var payload: seq<byte> := [];
      if code != 0 {
        payload := [(code / 256) % 256, code % 256];
        assert ToBigEndian(code, 2) == payload by {
          assert ToBigEndian(code / 256, 1) == [(code / 256) % 256];
        }
        if |reason| > 0 {
          var n := if |reason| < MaxCloseReason then |reason| else MaxCloseReason;
          payload := payload + reason[..n];
        }
      }
      var m := MaskingOf(mask, key);
      bytes := BuildFrame(Close, payload, true, m.0, m.1);
    }

    /** `build_ping_frame`: a payload over 125 bytes gives an empty result. */
    method BuildPingFrame(payload: seq<byte>, mask: bool, key: nat) returns (bytes: seq<byte>)
      ensures bytes == EncodeFrame(maxFrameSize, Ping, payload, true, MaskingOf(mask, key).0, MaskingOf(mask, key).1)
      ensures |payload| > MaxControlPayload ==> bytes == []
    {
      if |payload| > MaxControlPayload {
        return [];
      }
      var m := MaskingOf(mask, key);
      bytes := BuildFrame(Ping, payload, true, m.0, m.1);
    }

    /** `build_pong_frame`: a payload over 125 bytes gives an empty result. */
    method BuildPongFrame(payload: seq<byte>, mask: bool, key: nat) returns (bytes: seq<byte>)
      ensures bytes == EncodeFrame(maxFrameSize, Pong, payload, true, MaskingOf(mask, key).0, MaskingOf(mask, key).1)
      ensures |payload| > MaxControlPayload ==> bytes == []
    {
      if |payload| > MaxControlPayload {
        return [];
      }
      var m := MaskingOf(mask, key);
      bytes := BuildFrame(Pong, payload, true, m.0, m.1);
    }
  }
}
