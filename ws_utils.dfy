/**
 * The loop-based helpers of `WebSocketFrameUtils`: the UTF-8 scan, splitting a
 * message into fragments and joining fragments back into a message.
 */
module WsUtils {
  import opened Bytes
  import opened Seqs
  import opened Wrappers
  import opened WsFrame

  /** `is_valid_utf8`: one lead byte and its continuation bytes at a time. */
  method IsValidUtf8(data: seq<byte>) returns (ok: bool)
    ensures ok == Utf8(data)
  {
    var i := 0;
    while i < |data|
      invariant 0 <= i <= |data|
      invariant Utf8(data) == Utf8(data[i..])
    {
      var b := data[i];
      Utf8At(data, i);
      if b < 0x80 {
        i := i + 1;
      } else if b / 32 == 0x06 {
        if i + 1 >= |data| || data[i + 1] / 64 != 0x02 {
          return false;
        }
        i := i + 2;
      } else if b / 16 == 0x0E {
        if i + 2 >= |data| || data[i + 1] / 64 != 0x02 || data[i + 2] / 64 != 0x02 {
          return false;
        }
        i := i + 3;
      } else if b / 8 == 0x1E {
        if i + 3 >= |data| || data[i + 1] / 64 != 0x02 || data[i + 2] / 64 != 0x02 || data[i + 3] / 64 != 0x02 {
          return false;
        }
        i := i + 4;
      } else {
        return false;
      }
    }
    return true;
  }

  /** `Utf8` of a suffix, one group further on. */
  lemma Utf8At(data: seq<byte>, i: nat)
    requires i < |data|
    ensures var k := SequenceLength(data[i]);
      Utf8(data[i..]) <==>
        0 < k <= |data| - i && (forall j :: i < j < i + k ==> IsContinuationByte(data[j])) && Utf8(data[i + k..])
  {
    var k := SequenceLength(data[i]);
    var s := data[i..];
    assert s[0] == data[i];
    if 0 < k <= |data| - i {
      assert s[k..] == data[i + k..];
      assert forall j :: 1 <= j < k ==> s[j] == data[i + j];
      assert (forall j :: 1 <= j < k ==> IsContinuationByte(s[j])) <==>
             (forall j :: i < j < i + k ==> IsContinuationByte(data[j])) by {
        forall j | i < j < i + k
          ensures data[j] == s[j - i]
        {
        }
      }
    }
  }

  /** The payloads of `frames`, one after the other. */
  function Concat(frames: seq<Frame>): seq<byte>
  {
    if frames == [] then [] else Concat(frames[..|frames| - 1]) + frames[|frames| - 1].payload
  }

  /** An unmasked data frame as `fragment_message` builds it. */
  function FragmentFrame(fin: bool, opcode: Opcode, payload: seq<byte>): Frame
  {
    Frame(fin, false, false, false, opcode, false, |payload|, 0, payload)
  }

  /**
   * `frames` split `message`: the first frame carries `opcode` and the rest are
   * continuations, only the last is final, and when the message is longer
   * than `max` every fragment holds `max` bytes except the last, which holds
   * between 1 and `max`.
   */
  predicate FragmentsOf(frames: seq<Frame>, message: seq<byte>, opcode: Opcode, max: nat)
  {
    |frames| >= 1 &&
    Concat(frames) == message &&
    (forall i :: 0 <= i < |frames| ==>
       frames[i] == FragmentFrame(i == |frames| - 1, if i == 0 then opcode else Continuation, frames[i].payload)) &&
    (|message| <= max ==> |frames| == 1) &&
    (|message| > max ==>
       (forall i :: 0 <= i < |frames| - 1 ==> |frames[i].payload| == max) &&
       0 < |frames[|frames| - 1].payload| <= max)
  }

  lemma ConcatAppend(frames: seq<Frame>, f: Frame)
    ensures Concat(frames + [f]) == Concat(frames) + f.payload
  {
    assert (frames + [f])[..|frames|] == frames;
  }

  /**
   * `fragment_message`.  With a limit of 0 and a non-empty message the source
   * loops forever (each fragment is empty), so that call is excluded.
   */
  method FragmentMessage(message: seq<byte>, opcode: Opcode, max: nat) returns (frames: seq<Frame>)
    requires max > 0 || message == []
    ensures FragmentsOf(frames, message, opcode, max)
  {
    if |message| <= max {
      frames := [FragmentFrame(true, opcode, message)];
      assert Concat(frames) == Concat([]) + message;
      return;
    }
    frames := [];
    var offset := 0;
    var first := true;
    while offset < |message|
      invariant 0 <= offset < |message|
      invariant first <==> frames == []
      invariant offset == |frames| * max
      invariant Concat(frames) == message[..offset]
      invariant forall i :: 0 <= i < |frames| ==>
        frames[i] == FragmentFrame(false, if i == 0 then opcode else Continuation, frames[i].payload) &&
        |frames[i].payload| == max
      decreases |message| - offset
    {
      var size := Min(max, |message| - offset);
      var isFinal := offset + size >= |message|;
      var f := FragmentFrame(isFinal, if first then opcode else Continuation, message[offset..offset + size]);
      ConcatAppend(frames, f);
      assert message[..offset] + message[offset..offset + size] == message[..offset + size];
      frames := frames + [f];
      offset := offset + size;
      first := false;
      if isFinal {
        assert offset == |message|;
        assert message[..offset] == message;
        return;
      }
    }
    assert false;
  }

  /**
   * The sequencing rules `reassemble_message` checks: the first frame is not a
   * continuation, every later one is, and exactly the last one is final.
   */
  predicate WellSequenced(frames: seq<Frame>)
  {
    forall i :: 0 <= i < |frames| ==>
      (i == 0 <==> frames[i].opcode != Continuation) && (frames[i].fin <==> i == |frames| - 1)
  }

  /** What `reassemble_message` yields: the joined payloads, or nothing. */
  function Reassemble(frames: seq<Frame>): Option<seq<byte>>
  {
    if frames != [] && WellSequenced(frames) then Some(Concat(frames)) else None
  }

  /** `reassemble_message`: checks each fragment and appends its payload. */
  method ReassembleMessage(frames: seq<Frame>) returns (ok: bool, message: seq<byte>)
    ensures ok <==> Reassemble(frames).Some?
    ensures ok ==> message == Reassemble(frames).value
  {
    message := [];
    if frames == [] {
      return false, message;
    }
    var i := 0;
    while i < |frames|
      invariant 0 <= i <= |frames|
      invariant forall j :: 0 <= j < i ==>
        (j == 0 <==> frames[j].opcode != Continuation) && (frames[j].fin <==> j == |frames| - 1)
      invariant message == Concat(frames[..i])
    {
      var f := frames[i];
      if (i == 0 && f.opcode == Continuation) || (i != 0 && f.opcode != Continuation) {
        return false, message;
      }
      if f.fin && i != |frames| - 1 {
        return false, message;
      }
      if !f.fin && i == |frames| - 1 {
        return false, message;
      }
      ConcatAppend(frames[..i], f);
      assert frames[..i + 1] == frames[..i] + [f];
      message := message + f.payload;
      i := i + 1;
    }
    assert frames[..i] == frames;
    return true, message;
  }

  /** Reassembling the fragments of a message gives the message back. */
  lemma ReassembleFragments(frames: seq<Frame>, message: seq<byte>, opcode: Opcode, max: nat)
    requires FragmentsOf(frames, message, opcode, max) && opcode != Continuation
    ensures Reassemble(frames) == Some(message)
  {
    forall i | 0 <= i < |frames|
      ensures (i == 0 <==> frames[i].opcode != Continuation) && (frames[i].fin <==> i == |frames| - 1)
    {
      assert frames[i] == FragmentFrame(i == |frames| - 1, if i == 0 then opcode else Continuation, frames[i].payload);
    }
  }
}
