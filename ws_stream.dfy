/**
 * `WebSocketFrameStream`: feeds received bytes through a frame parser and,
 * when automatic reassembly is on, collects fragments until the final one
 * and delivers the joined message.  The stream's behaviour is given as pure
 * functions over a stream state (`Feed`, `Deliver`); the class is proved to
 * follow them, and lemmas show what a peer that sends built frames receives.
 */
module WsStream {
  import opened Bytes
  import opened Seqs
  import opened WsFrame
  import opened WsFrameLemmas
  import opened WsUtils
  import WsParser

  /** The stream's fields besides its settings: parser state and pending fragments. */
  datatype SState = SState(parser: PState, pending: seq<Frame>, expected: Opcode, inFragmented: bool)

  /** The outcome of one pass of the `process_data` loop. */
  datatype Pass = Pass(out: seq<Frame>, st: SState, consumed: nat, stop: bool)

  /** `get_fragmented_message_size`: the announced lengths of the pending fragments. */
  function SumLengths(frames: seq<Frame>): nat
  {
    if frames == [] then 0 else SumLengths(frames[..|frames| - 1]) + frames[|frames| - 1].payloadLength
  }

  /** `validate_fragment_sequence`: only the first fragment may, and must, carry a data opcode. */
  predicate SequenceOk(pending: seq<Frame>, f: Frame)
  {
    if pending == [] then f.opcode != Continuation else f.opcode == Continuation
  }

  /** The order `validate_fragment_sequence` keeps: a data opcode first, continuations after it. */
  predicate FragmentsOrdered(pending: seq<Frame>)
  {
    forall i :: 0 <= i < |pending| ==> (i == 0 <==> pending[i].opcode != Continuation)
  }

  /** Adding a fragment keeps the pending fragments in that order, and a fragment out of order is refused. */
  lemma FragmentOrderKept(s: SState, f: Frame, maxMessageSize: nat)
    requires FragmentsOrdered(s.pending)
    ensures FragmentsOrdered(WithFragment(s, f, maxMessageSize).1.pending)
    ensures s.pending == [] && f.opcode == Continuation ==> !WithFragment(s, f, maxMessageSize).0
    ensures s.pending != [] && f.opcode != Continuation ==> !WithFragment(s, f, maxMessageSize).0
  {
    if SequenceOk(s.pending, f) {
      var p := s.pending + [f];
      assert forall i :: 0 <= i < |s.pending| ==> p[i] == s.pending[i];
    }
  }

  /** `clear_fragments`. */
  function Cleared(s: SState): (r: SState)
    ensures r.pending == [] && !r.inFragmented
    ensures r.parser == s.parser && r.expected == s.expected
  {
    s.(pending := [], inFragmented := false)
  }

  /** `add_fragment`: whether the fragment was accepted, and the new state. */
  function WithFragment(s: SState, f: Frame, maxMessageSize: nat): (r: (bool, SState))
    ensures r.0 ==> r.1.pending == s.pending + [f] && SumLengths(r.1.pending) <= maxMessageSize
    ensures !r.0 ==> r.1.pending == s.pending || r.1.pending == []
    ensures r.1.parser == s.parser
  {
    if !SequenceOk(s.pending, f) then (false, s)
    else
      var p := s.pending + [f];
      var s1 := if |p| == 1 then s.(pending := p, expected := f.opcode, inFragmented := true) else s.(pending := p);
      if SumLengths(p) > maxMessageSize then (false, Cleared(s1)) else (true, s1)
  }

  /** The message `reassemble_fragments` builds from non-empty `pending`. */
  function Joined(pending: seq<Frame>): Frame
    requires pending != []
  {
    Frame(true, false, false, false, pending[0].opcode, false, |Concat(pending)|, 0, Concat(pending))
  }

  /** `reassemble_fragments`: the joined message and a cleared state; a default frame when nothing is pending. */
  function Reassembled(s: SState): (r: (Frame, SState))
    ensures r.1 == Cleared(s) || (s.pending == [] && r.1 == s)
  {
    if s.pending == [] then (EmptyFrame, s) else (Joined(s.pending), Cleared(s))
  }

  /** What `process_data` does with one complete frame: deliver it, or treat it as a fragment. */
  function Deliver(s: SState, f: Frame, autoReassemble: bool, maxMessageSize: nat): (r: (seq<Frame>, SState))
    ensures r.1.parser == s.parser
  {
    if autoReassemble && (f.opcode == Continuation || !f.fin) then
      var a := WithFragment(s, f, maxMessageSize);
      if a.0 then
        (if f.fin then var j := Reassembled(a.1); ([j.0], j.1) else ([], a.1))
      else ([], Cleared(a.1))
    else ([f], s)
  }

  /** The parser settings the stream uses: its message limit as frame limit, text checked. */
  function StreamConfig(maxMessageSize: nat): Config
  {
    Config(maxMessageSize, false, true)
  }

  /**
   * One pass of the `process_data` loop: the frames it delivers, the new
   * state, the bytes the parser took, and whether the loop stops here (an
   * error, or nothing taken).
   */
  function Advance(autoReassemble: bool, maxMessageSize: nat, s: SState, data: seq<byte>): (r: Pass)
    requires Wf(s.parser)
    ensures Wf(r.st.parser) && r.consumed <= |data|
    ensures !r.stop ==> r.consumed > 0
  {
    var o := Run(Corrected, StreamConfig(maxMessageSize), s.parser, data);
    if o.result == Success then
      var d := Deliver(s.(parser := Fresh), o.st.frame, autoReassemble, maxMessageSize);
      Pass(d.0, d.1, o.consumed, o.consumed == 0)
    else if o.result != Incomplete then Pass([], s.(parser := o.st), o.consumed, true)
    else Pass([], s.(parser := o.st), o.consumed, o.consumed == 0)
  }

  /**
   * `process_data`: parse, deliver each complete frame, stop at an error, at
   * the end of the input, or when the parser takes nothing.
   */
  function Feed(autoReassemble: bool, maxMessageSize: nat, s: SState, data: seq<byte>): (r: (seq<Frame>, SState))
    requires Wf(s.parser)
    ensures Wf(r.1.parser)
    decreases |data|
  {
    if data == [] then ([], s)
    else
      var p := Advance(autoReassemble, maxMessageSize, s, data);
      if p.stop then (p.out, p.st)
      else var rest := Feed(autoReassemble, maxMessageSize, p.st, data[p.consumed..]); (p.out + rest.0, rest.1)
  }

  /** `Feed` after one pass: stopped, or the pass's frames then the rest fed on. */
  lemma FeedPass(autoReassemble: bool, maxMessageSize: nat, s: SState, data: seq<byte>)
    requires Wf(s.parser) && data != []
    ensures var p := Advance(autoReassemble, maxMessageSize, s, data);
      var r := Feed(autoReassemble, maxMessageSize, p.st, data[p.consumed..]);
      Feed(autoReassemble, maxMessageSize, s, data) == if p.stop then (p.out, p.st) else (p.out + r.0, r.1)
  {
  }

  lemma Regrouped(goal: (seq<Frame>, SState), frames: seq<Frame>, out: seq<Frame>, r: (seq<Frame>, SState))
    requires goal == (frames + (out + r.0), r.1)
    ensures goal == ((frames + out) + r.0, r.1)
  {
    assert frames + (out + r.0) == (frames + out) + r.0;
  }

  /** Delivering whole frames one after another. */
  function DeliverAll(s: SState, frames: seq<Frame>, autoReassemble: bool, maxMessageSize: nat): (r: (seq<Frame>, SState))
    ensures r.1.parser == s.parser
    decreases |frames|
  {
    if frames == [] then ([], s)
    else
      var d := Deliver(s, frames[0], autoReassemble, maxMessageSize);
      var rest := DeliverAll(d.1, frames[1..], autoReassemble, maxMessageSize);
      (d.0 + rest.0, rest.1)
  }

  // ---------------------------------------------------------------------------
  // What a peer that sends built frames receives
  // ---------------------------------------------------------------------------

  /**
   * A frame a builder with limit `builderMax` can send and a stream with
   * limit `maxMessageSize` accepts, already in the form the parser yields.
   */
  predicate Sendable(f: Frame, builderMax: nat, maxMessageSize: nat)
  {
    IsValidOpcode(f.opcode) && !f.rsv1 && !f.rsv2 && !f.rsv3 &&
    f.payloadLength == |f.payload| && f.maskKey < KeyLimit && (f.masked || f.maskKey == 0) &&
    Encodable(builderMax, f.opcode, |f.payload|) && |f.payload| <= maxMessageSize && |f.payload| < LengthMsb &&
    (IsControlOpcode(f.opcode) ==> f.fin) &&
    (f.opcode == Text ==> Utf8(f.payload))
  }

  /** The bytes of `frames` as the builder encodes them, one after another. */
  function Encodings(frames: seq<Frame>, builderMax: nat): seq<byte>
  {
    if frames == [] then []
    else EncodeFrame(builderMax, frames[0].opcode, frames[0].payload, frames[0].fin, frames[0].masked, frames[0].maskKey)
         + Encodings(frames[1..], builderMax)
  }

  /**
   * Feeding the encodings of sendable frames to a stream whose parser is
   * fresh delivers exactly what delivering the frames themselves would.
   */
  lemma {:induction false} FeedEncodings(autoReassemble: bool, maxMessageSize: nat, builderMax: nat,
                                         s: SState, frames: seq<Frame>)
    requires s.parser == Fresh
    requires forall i :: 0 <= i < |frames| ==> Sendable(frames[i], builderMax, maxMessageSize)
    ensures Feed(autoReassemble, maxMessageSize, s, Encodings(frames, builderMax))
         == DeliverAll(s, frames, autoReassemble, maxMessageSize)
    decreases |frames|
  {
    if frames != [] {
      var f := frames[0];
      var c := StreamConfig(maxMessageSize);
      var enc := EncodeFrame(builderMax, f.opcode, f.payload, f.fin, f.masked, f.maskKey);
      var rest := Encodings(frames[1..], builderMax);
      assert Sendable(f, builderMax, maxMessageSize);
      RoundTrip(c, f.opcode, f.payload, f.fin, f.masked, f.maskKey, rest);
      var o := Run(Corrected, c, Fresh, enc + rest);
      assert o.st.frame == f;
      assert |enc| > 0;
      assert (enc + rest)[|enc|..] == rest;
      var d := Deliver(s, f, autoReassemble, maxMessageSize);
      assert forall i :: 0 <= i < |frames| - 1 ==> frames[1..][i] == frames[i + 1];
      var tail := frames[1..];
      FeedEncodings(autoReassemble, maxMessageSize, builderMax, d.1, tail);
      if tail != [] {
        EncodingNonEmpty(tail, builderMax, maxMessageSize);
      }
    }
  }

  /** A sendable frame encodes to at least its two header bytes. */
  lemma EncodingNonEmpty(frames: seq<Frame>, builderMax: nat, maxMessageSize: nat)
    requires frames != [] && Sendable(frames[0], builderMax, maxMessageSize)
    ensures Encodings(frames, builderMax) != []
  {
  }

  /** Frames that are whole messages or control frames pass through the stream unchanged. */
  lemma {:induction false} WholeFramesPassThrough(s: SState, frames: seq<Frame>, autoReassemble: bool, maxMessageSize: nat)
    requires forall i :: 0 <= i < |frames| ==> frames[i].fin && frames[i].opcode != Continuation
    ensures DeliverAll(s, frames, autoReassemble, maxMessageSize) == (frames, s)
    decreases |frames|
  {
    if frames != [] {
      assert forall i :: 0 <= i < |frames| - 1 ==> frames[1..][i] == frames[i + 1];
      WholeFramesPassThrough(s, frames[1..], autoReassemble, maxMessageSize);
      assert [frames[0]] + frames[1..] == frames;
    }
  }

  lemma ConcatPrefix(frames: seq<Frame>, k: nat)
    requires k < |frames|
    ensures Concat(frames[..k + 1]) == Concat(frames[..k]) + frames[k].payload
  {
    assert frames[..k + 1][..k] == frames[..k];
  }

  /** The announced lengths of fragments add up to the bytes they carry. */
  lemma {:induction false} SumLengthsOfFragments(frames: seq<Frame>)
    requires forall i :: 0 <= i < |frames| ==> frames[i].payloadLength == |frames[i].payload|
    ensures SumLengths(frames) == |Concat(frames)|
  {
    if frames != [] {
      SumLengthsOfFragments(frames[..|frames| - 1]);
    }
  }

  /** `Concat` of a prefix is a prefix of `Concat`. */
  lemma {:induction false} ConcatPrefixLength(frames: seq<Frame>, k: nat)
    requires k <= |frames|
    ensures |Concat(frames[..k])| <= |Concat(frames)|
    decreases |frames| - k
  {
    if k < |frames| {
      ConcatPrefix(frames, k);
      ConcatPrefixLength(frames, k + 1);
    } else {
      assert frames[..k] == frames;
    }
  }

  /** Every prefix of a message's fragments fits a stream that fits the message. */
  lemma FragmentPrefixFits(frames: seq<Frame>, message: seq<byte>, opcode: Opcode, max: nat,
                           maxMessageSize: nat, k: nat)
    requires FragmentsOf(frames, message, opcode, max) && |message| <= maxMessageSize
    requires k <= |frames|
    ensures SumLengths(frames[..k]) <= maxMessageSize
  {
    var p := frames[..k];
    forall i | 0 <= i < |p|
      ensures p[i].payloadLength == |p[i].payload|
    {
      assert p[i] == frames[i];
      assert frames[i] == FragmentFrame(i == |frames| - 1, if i == 0 then opcode else Continuation, frames[i].payload);
    }
    SumLengthsOfFragments(p);
    ConcatPrefixLength(frames, k);
  }

  /**
   * With fragments `frames[..k]` pending, delivering the rest of a message's
   * fragments yields the joined message and leaves nothing pending.
   */
  lemma {:induction false} DeliverRemainingFragments(s: SState, frames: seq<Frame>, message: seq<byte>,
                                                     opcode: Opcode, max: nat, maxMessageSize: nat, k: nat)
    requires FragmentsOf(frames, message, opcode, max) && opcode != Continuation
    requires |message| <= maxMessageSize
    requires 1 <= k < |frames| && s.pending == frames[..k]
    ensures var r := DeliverAll(s, frames[k..], true, maxMessageSize);
      r.0 == [Frame(true, false, false, false, opcode, false, |message|, 0, message)] && r.1.pending == []
    decreases |frames| - k
  {
    var f := frames[k];
    assert f == FragmentFrame(k == |frames| - 1, Continuation, f.payload);
    var p := frames[..k + 1];
    assert p == s.pending + [f];
    FragmentPrefixFits(frames, message, opcode, max, maxMessageSize, k + 1);
    var a := WithFragment(s, f, maxMessageSize);
    assert a == (true, s.(pending := p));
    var tail := frames[k..];
    assert tail[0] == f && tail[1..] == frames[k + 1..];
    if k == |frames| - 1 {
      assert p == frames;
      assert frames[0] == FragmentFrame(false, opcode, frames[0].payload);
      assert frames[k + 1..] == [];
    } else {
      DeliverRemainingFragments(a.1, frames, message, opcode, max, maxMessageSize, k + 1);
    }
  }

  /**
   * A message split by `fragment_message` and delivered to a reassembling
   * stream arrives as one final, unmasked frame with the whole message.
   */
  lemma FragmentsReassembled(s: SState, frames: seq<Frame>, message: seq<byte>, opcode: Opcode, max: nat,
                             maxMessageSize: nat)
    requires FragmentsOf(frames, message, opcode, max) && opcode != Continuation
    requires |message| <= maxMessageSize && s.pending == []
    ensures DeliverAll(s, frames, true, maxMessageSize).0
         == [Frame(true, false, false, false, opcode, false, |message|, 0, message)]
  {
    var f := frames[0];
    assert f == FragmentFrame(|frames| == 1, opcode, f.payload);
    if |frames| == 1 {
      assert frames[..0] == [];
      assert Concat(frames) == Concat([]) + f.payload;
      assert frames[1..] == [];
      assert f == Frame(true, false, false, false, opcode, false, |message|, 0, message);
      assert Deliver(s, f, true, maxMessageSize) == ([f], s);
      assert DeliverAll(s, frames[1..], true, maxMessageSize) == ([], s);
    } else {
      FragmentPrefixFits(frames, message, opcode, max, maxMessageSize, 1);
      assert [f] == frames[..1];
      var a := WithFragment(s, f, maxMessageSize);
      assert a.0 && a.1.pending == frames[..1];
      DeliverRemainingFragments(a.1, frames, message, opcode, max, maxMessageSize, 1);
    }
  }

  /**
   * End to end: the fragments of a data message, built and fed to a fresh
   * reassembling stream, arrive as the one whole message.  Each frame's text
   * is checked on its own, so a text message needs a first fragment that is
   * UTF-8 by itself.
   */
  lemma MessageArrivesWhole(s: SState, frames: seq<Frame>, message: seq<byte>, opcode: Opcode, max: nat,
                            builderMax: nat, maxMessageSize: nat)
    requires FragmentsOf(frames, message, opcode, max) && (opcode == Text || opcode == Binary)
    requires max <= builderMax && |message| <= maxMessageSize && |message| < LengthMsb
    requires opcode == Text ==> Utf8(frames[0].payload)
    requires s.parser == Fresh && s.pending == []
    ensures Feed(true, maxMessageSize, s, Encodings(frames, builderMax)).0
         == [Frame(true, false, false, false, opcode, false, |message|, 0, message)]
  {
    forall i | 0 <= i < |frames|
      ensures Sendable(frames[i], builderMax, maxMessageSize)
    {
      var f := frames[i];
      assert f == FragmentFrame(i == |frames| - 1, if i == 0 then opcode else Continuation, f.payload);
      ConcatPrefixLength(frames, i + 1);
      ConcatPrefix(frames, i);
      assert |f.payload| <= |message|;
      assert |f.payload| <= builderMax by {
        if |message| > max {
          assert |f.payload| <= max;
        } else {
          assert |frames| == 1;
        }
      }
    }
    FeedEncodings(true, maxMessageSize, builderMax, s, frames);
    FragmentsReassembled(s, frames, message, opcode, max, maxMessageSize);
  }

  // ---------------------------------------------------------------------------
  // The stream object
  // ---------------------------------------------------------------------------

  class FrameStream {
    const parser: WsParser.FrameParser
    var pendingFragments: seq<Frame>
    var expectedContinuationOpcode: Opcode
    var inFragmentedMessage: bool
    const maxMessageSize: nat
    const autoReassemble: bool

    function State(): SState
      reads this, parser
    {
      SState(parser.State(), pendingFragments, expectedContinuationOpcode, inFragmentedMessage)
    }

    predicate Valid()
      reads this, parser
    {
      parser.Valid() && parser.config == StreamConfig(maxMessageSize)
    }

    constructor(maxMessageSize: nat, autoReassemble: bool)
      ensures Valid() && fresh(parser)
      ensures State() == SState(Fresh, [], Text, false)
      ensures this.maxMessageSize == maxMessageSize && this.autoReassemble == autoReassemble
    {
      parser := new WsParser.FrameParser(maxMessageSize, false, true);
      pendingFragments := [];
      expectedContinuationOpcode := Text;
      inFragmentedMessage := false;
      this.maxMessageSize := maxMessageSize;
      this.autoReassemble := autoReassemble;
    }

    /** `clear_fragments`. */
    method ClearFragments()
      modifies this`pendingFragments, this`inFragmentedMessage
      ensures State() == Cleared(old(State()))
    {
      pendingFragments := [];
      inFragmentedMessage := false;
    }

    /** `get_fragmented_message_size`: sums the pending fragments' lengths. */
    method GetFragmentedMessageSize() returns (total: nat)
      ensures total == SumLengths(pendingFragments)
    {
      total := 0;
      var i := 0;
      while i < |pendingFragments|
        invariant 0 <= i <= |pendingFragments|
        invariant total == SumLengths(pendingFragments[..i])
      {
        assert pendingFragments[..i + 1][..i] == pendingFragments[..i];
        total := total + pendingFragments[i].payloadLength;
        i := i + 1;
      }
      assert pendingFragments[..i] == pendingFragments;
    }

    /** `add_fragment`. */
    method AddFragment(f: Frame) returns (ok: bool)
      modifies this`pendingFragments, this`expectedContinuationOpcode, this`inFragmentedMessage
      ensures (ok, State()) == WithFragment(old(State()), f, maxMessageSize)
    {
      if !SequenceOk(pendingFragments, f) {
        return false;
      }
      pendingFragments := pendingFragments + [f];
      if |pendingFragments| == 1 {
        expectedContinuationOpcode := f.opcode;
        inFragmentedMessage := true;
      }
      var size := GetFragmentedMessageSize();
      if size > maxMessageSize {
        ClearFragments();
        return false;
      }
      return true;
    }

    /** `reassemble_fragments`: joins the pending payloads in order. */
    method ReassembleFragments() returns (f: Frame)
      modifies this`pendingFragments, this`inFragmentedMessage
      ensures (f, State()) == Reassembled(old(State()))
    {
      if pendingFragments == [] {
        return EmptyFrame;
      }
      var payload: seq<byte> := [];
      var i := 0;
      while i < |pendingFragments|
        invariant 0 <= i <= |pendingFragments|
        invariant payload == Concat(pendingFragments[..i])
      {
        assert pendingFragments[..i + 1][..i] == pendingFragments[..i];
        payload := payload + pendingFragments[i].payload;
        i := i + 1;
      }
      assert pendingFragments[..i] == pendingFragments;
      f := Frame(true, false, false, false, pendingFragments[0].opcode, false, |payload|, 0, payload);
      ClearFragments();
    }

    /** The handling of one complete frame inside `process_data`. */
    method DeliverFrame(f: Frame) returns (out: seq<Frame>)
      modifies this`pendingFragments, this`expectedContinuationOpcode, this`inFragmentedMessage
      ensures (out, State()) == Deliver(old(State()), f, autoReassemble, maxMessageSize)
    {
      out := [];
      if autoReassemble && (f.opcode == Continuation || !f.fin) {
        var ok := AddFragment(f);
        if ok {
          if f.fin {
            var complete := ReassembleFragments();
            out := [complete];
          }
        } else {
          ClearFragments();
        }
      } else {
        out := [f];
      }
    }

    /** One pass of the `process_data` loop over the unread `rest`. */
    method ProcessOnce(rest: seq<byte>) returns (out: seq<Frame>, consumed: nat, stop: bool)
      requires Valid()
      modifies this, parser
      ensures Valid()
      ensures Pass(out, State(), consumed, stop) == Advance(autoReassemble, maxMessageSize, old(State()), rest)
    {
      ghost var s0 := State();
      var result;
      result, consumed := parser.Parse(rest);
      ghost var o := Run(Corrected, StreamConfig(maxMessageSize), s0.parser, rest);
      assert o == Outcome(parser.State(), result, consumed);
      var complete := parser.HasCompleteFrame();
      out := [];
      if result == Success && complete {
        var f := parser.TakeFrame();
        assert State() == s0.(parser := Fresh);
        out := DeliverFrame(f);
        stop := consumed == 0;
      } else {
        stop := result != Incomplete || consumed == 0;
      }
    }

    /** `process_data`: the frames completed by `data`, with the new stream state. */
    method ProcessData(data: seq<byte>) returns (frames: seq<Frame>)
      requires Valid()
      modifies this, parser
      ensures Valid()
      ensures (frames, State()) == Feed(autoReassemble, maxMessageSize, old(State()), data)
    {
      frames := [];
      var rest := data;
      ghost var goal := Feed(autoReassemble, maxMessageSize, State(), data);
      assert frames + goal.0 == goal.0;
      while rest != []
        invariant Valid()
        invariant goal == (frames + Feed(autoReassemble, maxMessageSize, State(), rest).0,
                           Feed(autoReassemble, maxMessageSize, State(), rest).1)
        decreases |rest|
      {
        ghost var frames0 := frames;
        ghost var s0 := State();
        ghost var p := Advance(autoReassemble, maxMessageSize, s0, rest);
        FeedPass(autoReassemble, maxMessageSize, s0, rest);
        var out, consumed, stop := ProcessOnce(rest);
        assert p == Pass(out, State(), consumed, stop);
        frames := frames + out;
        if stop {
          return;
        }
        Regrouped(goal, frames0, out, Feed(autoReassemble, maxMessageSize, State(), rest[consumed..]));
        rest := rest[consumed..];
      }
      assert frames + [] == frames;
    }
  }
}
