/**
 * `WebSocketFrameParser`: the incremental frame parser as a class whose
 * fields are the parser's state.  Every method is proved to do what the
 * corrected state machine in WsFrame does, so the round trip and the
 * consumed-count lemmas of WsFrameLemmas hold of it.
 */
module WsParser {
  import opened Bytes
  import opened Seqs
  import opened WsFrame
  import WsUtils

  /** `read_big_endian_16/64` and the mask-key loop: shift in one byte at a time. */
  method ReadBigEndian(bs: seq<byte>) returns (value: nat)
    ensures value == BigEndian(bs)
  {
    value := 0;
    var i := 0;
    while i < |bs|
      invariant 0 <= i <= |bs|
      invariant value == BigEndian(bs[..i])
    {
      assert bs[..i + 1][..i] == bs[..i];
      value := value * 256 + bs[i];
      i := i + 1;
    }
    assert bs[..i] == bs;
  }

  /** `unmask_payload` and `mask_payload_inplace` on a copy: xor with the key bytes in turn. */
  method MaskBytes(payload: seq<byte>, key: nat) returns (r: seq<byte>)
    ensures r == Mask(payload, key)
  {
    var kb := [(key / 0x100_0000) % 256, (key / 0x1_0000) % 256, (key / 0x100) % 256, key % 256];
    KeyBytesShifts(key);
    r := payload;
    var i := 0;
    while i < |r|
      invariant 0 <= i <= |r| == |payload|
      invariant forall j :: 0 <= j < i ==> r[j] == XorB(payload[j], kb[j % 4])
      invariant forall j :: i <= j < |r| ==> r[j] == payload[j]
    {
      r := r[i := XorB(r[i], kb[i % 4])];
      i := i + 1;
    }
  }

  /** One unfolding of the corrected `Run`. */
  lemma RunUnfold(c: Config, st: PState, data: seq<byte>)
    requires Wf(st) && Continues(Corrected, st, data)
    ensures var o := Step(Corrected, c, st, data);
      Run(Corrected, c, st, data) ==
        if o.result != Success then Outcome(o.st, o.result, Counted(Corrected, o))
        else var r := Run(Corrected, c, o.st, data[o.consumed..]); Outcome(r.st, r.result, o.consumed + r.consumed)
  {
  }

  class FrameParser {
    var stage: Stage
    var buffer: seq<byte>
    var frame: Frame
    var bytesNeeded: nat
    const config: Config

    /** The parser's state as a value of the state machine. */
    function State(): PState
      reads this
    {
      PState(stage, buffer, frame, bytesNeeded)
    }

    predicate Valid()
      reads this
    {
      Wf(State())
    }

    constructor(maxFrameSize: nat, requireMasking: bool, validateUtf8: bool)
      ensures Valid() && State() == Fresh
      ensures config == Config(maxFrameSize, requireMasking, validateUtf8)
    {
      stage := Header;
      buffer := [];
      frame := EmptyFrame;
      bytesNeeded := 2;
      config := Config(maxFrameSize, requireMasking, validateUtf8);
    }

    /**
     * `parse`: feeds `data` through the steps.  The result, the count of bytes
     * consumed and the new state are those of the corrected state machine.
     */
    method Parse(data: seq<byte>) returns (result: ParseResult, consumed: nat)
      requires Valid()
      modifies this
      ensures Valid()
      ensures Outcome(State(), result, consumed) == Run(Corrected, config, old(State()), data)
    {
      consumed := 0;
      var rest := data;
      while Continues(Corrected, State(), rest)
        invariant Valid()
        invariant consumed <= |data| && rest == data[consumed..]
        invariant var r := Run(Corrected, config, State(), rest);
          Run(Corrected, config, old(State()), data) == Outcome(r.st, r.result, consumed + r.consumed)
        decreases |rest|, 4 - Rank(stage)
      {
        ghost var before := State();
        StepProgress(Corrected, config, before, rest);
        RunUnfold(config, before, rest);
        var r, n := StepOnce(rest);
        if r != Success {
          if r == Incomplete {
            consumed := consumed + n;
          }
          return r, consumed;
        }
        assert data[consumed..][n..] == data[consumed + n..];
        rest := rest[n..];
        consumed := consumed + n;
      }
      result := if stage == Complete then Success else Incomplete;
    }

    /** One iteration of the `parse` loop: the step for the current stage. */
    method StepOnce(data: seq<byte>) returns (result: ParseResult, n: nat)
      requires Valid() && stage != Complete
      modifies this
      ensures Outcome(State(), result, n) == Step(Corrected, config, old(State()), data)
    {
      match stage {
        case Header => result, n := ParseHeader(data);
        case ExtendedLength => result, n := ParseExtendedLength(data);
        case MaskKey => result, n := ParseMask(data);
        case Payload => result, n := ParsePayload(data);
      }
    }

    /** Moves bytes of `data` into the buffer until it holds `target` bytes. */
    method Fill(data: seq<byte>, target: nat) returns (n: nat)
      modifies this`buffer
      ensures n == Take(|old(buffer)|, |data|, target)
      ensures buffer == old(buffer) + data[..n]
    {
      n := 0;
      while |buffer| < target && n < |data|
        invariant n <= |data| && buffer == old(buffer) + data[..n]
        invariant n == 0 || |old(buffer)| + n <= target
      {
        assert data[..n + 1] == data[..n] + [data[n]];
        buffer := buffer + [data[n]];
        n := n + 1;
      }
    }

    /** `parse_header`, with `bytes_needed_` cleared for a 7-bit length. */
    method ParseHeader(data: seq<byte>) returns (result: ParseResult, n: nat)
      requires Valid() && stage == Header
      modifies this
      ensures Outcome(State(), result, n) == WsFrame.ParseHeader(Corrected, config, old(State()), data)
    {
      n := Fill(data, 2);
      if |buffer| < 2 {
        return Incomplete, n;
      }
      var b1 := buffer[0];
      frame := frame.(fin := b1 >= 0x80, rsv1 := (b1 / 0x40) % 2 == 1, rsv2 := (b1 / 0x20) % 2 == 1,
                      rsv3 := (b1 / 0x10) % 2 == 1, opcode := b1 % 0x10);
      if !IsValidOpcode(frame.opcode) {
        return InvalidOpcode, n;
      }
      var b2 := buffer[1];
      frame := frame.(masked := b2 >= 0x80);
      var len7 := b2 % 0x80;
      if config.requireMasking && !frame.masked {
        return InvalidMask, n;
      }
      if len7 < 126 {
        frame := frame.(payloadLength := len7);
        bytesNeeded := 0;
        stage := if frame.masked then MaskKey else Payload;
      } else if len7 == 126 {
        bytesNeeded := 2;
        stage := ExtendedLength;
      } else {
        bytesNeeded := 8;
        stage := ExtendedLength;
      }
      if IsControlOpcode(frame.opcode) && (!frame.fin || len7 > MaxControlPayload) {
        return ProtocolError, n;
      }
      return Success, n;
    }

    /** `parse_extended_length`. */
    method ParseExtendedLength(data: seq<byte>) returns (result: ParseResult, n: nat)
      requires Valid() && stage == ExtendedLength
      modifies this
      ensures Outcome(State(), result, n) == WsFrame.ParseExtendedLength(config, old(State()), data)
    {
      n := Fill(data, 2 + bytesNeeded);
      if |buffer| < 2 + bytesNeeded {
        return Incomplete, n;
      }
      if bytesNeeded == 2 {
        var len := ReadBigEndian(buffer[2..4]);
        frame := frame.(payloadLength := len);
        if len < 126 {
          return ProtocolError, n;
        }
      } else if bytesNeeded == 8 {
        var len := ReadBigEndian(buffer[2..10]);
        frame := frame.(payloadLength := len);
        if len < 65536 {
          return ProtocolError, n;
        }
        if len >= LengthMsb {
          return InvalidLength, n;
        }
      }
      if frame.payloadLength > config.maxFrameSize {
        return TooLarge, n;
      }
      stage := if frame.masked then MaskKey else Payload;
      return Success, n;
    }

    /** `parse_mask`. */
    method ParseMask(data: seq<byte>) returns (result: ParseResult, n: nat)
      requires Valid() && stage == MaskKey
      modifies this
      ensures Outcome(State(), result, n) == WsFrame.ParseMask(old(State()), data)
    {
      var h := 2 + bytesNeeded;
      n := Fill(data, h + 4);
      if |buffer| < h + 4 {
        return Incomplete, n;
      }
      var key := ReadBigEndian(buffer[h..h + 4]);
      frame := frame.(maskKey := key);
      stage := Payload;
      return Success, n;
    }

    /** `parse_payload`: copy, then unmask and check the text once complete. */
    method ParsePayload(data: seq<byte>) returns (result: ParseResult, n: nat)
      requires Valid() && stage == Payload
      modifies this
      ensures Outcome(State(), result, n) == WsFrame.ParsePayload(config, old(State()), data)
    {
      var remaining := frame.payloadLength - |frame.payload|;
      n := Min(remaining, |data|);
      frame := frame.(payload := frame.payload + data[..n]);
      if |frame.payload| == frame.payloadLength {
        if frame.masked {
          var p := MaskBytes(frame.payload, frame.maskKey);
          frame := frame.(payload := p);
        }
        if config.validateUtf8 && frame.opcode == Text {
          var ok := WsUtils.IsValidUtf8(frame.payload);
          if !ok {
            return InvalidLength, n;
          }
        }
        stage := Complete;
      }
      return Success, n;
    }

    /** `has_complete_frame`. */
    method HasCompleteFrame() returns (b: bool)
      ensures b <==> stage == Complete
    {
      return stage == Complete;
    }

    /** `reset`: back to a fresh parser, settings kept. */
    method Reset()
      modifies this
      ensures Valid() && State() == Fresh
    {
      stage := Header;
      frame := EmptyFrame;
      buffer := [];
      bytesNeeded := 2;
    }

    /** `take_frame`: the current frame, and the parser reset. */
    method TakeFrame() returns (f: Frame)
      modifies this
      ensures f == old(frame)
      ensures Valid() && State() == Fresh
    {
      f := frame;
      Reset();
    }
  }
}
