/** Length-prefixed framing of peer-to-peer messages (internal/node/protocols.go). */
module Framing {
  import opened BigEndian

  type Bytes = seq<Byte>

  const MAX_MESSAGE_SIZE := 16 * 1024 * 1024
  const UINT32_RANGE := 0x1_0000_0000

  /** How one attempt to read a frame ends. `CleanEnd` is io.EOF, on which the read loop stops silently. */
  datatype Outcome =
    | Delivered(data: Bytes)
    | CleanEnd
    | Truncated
    | TooLarge(length: nat)

  /** The bytes one write puts on the stream; the length is converted to 32 bits, so it wraps. */
  function Frame(m: Bytes): Bytes {
    Encode(|m| % UINT32_RANGE, 4) + m
  }

  function FrameAll(msgs: seq<Bytes>): Bytes {
    if msgs == [] then [] else Frame(msgs[0]) + FrameAll(msgs[1..])
  }

  predicate Small(msgs: seq<Bytes>) {
    forall m <- msgs :: |m| <= MAX_MESSAGE_SIZE
  }

  function ReadFrame(s: Bytes): Outcome {
    if s == [] then CleanEnd
    else if |s| < 4 then Truncated
    else
      var n := Decode(s[..4]);
      if n > MAX_MESSAGE_SIZE then TooLarge(n)
      else if n <= |s| - 4 then Delivered(s[4..4 + n])
      else if |s| == 4 then CleanEnd
      else Truncated
  }

  /** Everything a receiver gets out of a byte stream, and how its read loop ends. */
  function ReadAll(s: Bytes): (r: (seq<Bytes>, Outcome))
    ensures !r.1.Delivered?
    decreases |s|
  {
    match ReadFrame(s)
    case Delivered(data) =>
      var rest := ReadAll(s[4 + |data|..]);
      ([data] + rest.0, rest.1)
    case end => ([], end)
  }

  // ---- The imperative reader and writer ----

  class Sink {
    var written: Bytes

    constructor ()
      ensures written == []
    {
      written := [];
    }

    method Write(data: Bytes)
      modifies this
      ensures written == old(written) + data
    {
      written := written + data;
    }
  }

  method WriteFramed(w: Sink, data: Bytes)
    modifies w
    ensures w.written == old(w.written) + Frame(data)
  {
    var length := |data| % UINT32_RANGE;
    w.Write(Encode(length, 4));
    w.Write(data);
  }

  datatype ReadError = NoError | Eof | UnexpectedEof

  class Source {
    var remaining: Bytes

    constructor (bytes: Bytes)
      ensures remaining == bytes
    {
      remaining := bytes;
    }

    /** io.ReadFull: all n bytes, or an error that tells "nothing there" from "cut short". */
    method ReadFull(n: nat) returns (data: Bytes, err: ReadError)
      modifies this
      ensures err == (if n <= |old(remaining)| then NoError else if old(remaining) == [] then Eof else UnexpectedEof)
      ensures err.NoError? ==> data == old(remaining)[..n] && remaining == old(remaining)[n..]
      ensures !err.NoError? ==> data == [] && remaining == []
    {
      if n <= |remaining| {
        data, err, remaining := remaining[..n], NoError, remaining[n..];
      } else {
        data, err, remaining := [], (if remaining == [] then Eof else UnexpectedEof), [];
      }
    }

    method ReadFramed() returns (r: Outcome)
      modifies this
      ensures r == ReadFrame(old(remaining))
      ensures r.Delivered? ==> remaining == old(remaining)[4 + |r.data|..]
    {
      var header, err := ReadFull(4);
      if !err.NoError? {
        return if err.Eof? then CleanEnd else Truncated;
      }
      var length := Decode(header);
      if length > MAX_MESSAGE_SIZE {
        return TooLarge(length);
      }
      var data;
      data, err := ReadFull(length);
      if !err.NoError? {
        return if err.Eof? then CleanEnd else Truncated;
      }
      r := Delivered(data);
    }

    /** The stream handler's loop: hand every frame to the router until the first error. */
    method ReadLoop() returns (handled: seq<Bytes>, end: Outcome)
      modifies this
      ensures (handled, end) == ReadAll(old(remaining))
    {
      handled := [];
      end := CleanEnd;
      while true
        invariant handled + ReadAll(remaining).0 == ReadAll(old(remaining)).0
        invariant ReadAll(remaining).1 == ReadAll(old(remaining)).1
        decreases |remaining|
      {
        ghost var before := remaining;
        var r := ReadFramed();
        if !r.Delivered? {
          end := r;
          assert ReadAll(before) == ([], r);
          assert handled + [] == handled;
          return;
        }
        assert handled + ([r.data] + ReadAll(remaining).0) == (handled + [r.data]) + ReadAll(remaining).0;
        handled := handled + [r.data];
      }
    }
  }

  // ---- What framing promises ----

  lemma HeaderOf(m: Bytes, rest: Bytes)
    ensures |Frame(m)| == 4 + |m|
    ensures Decode((Frame(m) + rest)[..4]) == |m| % UINT32_RANGE
  {
    Widths();
    DecodeEncode(|m| % UINT32_RANGE, 4);
    assert (Frame(m) + rest)[..4] == Encode(|m| % UINT32_RANGE, 4);
  }

  /** The bytes of a frame: the length, most significant byte first, then the message. */
  lemma FrameBytes(m: Bytes)
    ensures Frame(m) == LowBytes(|m| % 0x1_0000_0000) + m
  {
    BigEndianBytes(|m| % UINT32_RANGE);
  }

  /** One frame is read back as it was written exactly when the message is at most 16 MiB. */
  lemma FrameReadBack(m: Bytes, rest: Bytes)
    ensures ReadFrame(Frame(m) + rest) == Delivered(m) <==> |m| <= 16_777_216
    ensures 16_777_216 < |m| < 0x1_0000_0000 ==> ReadFrame(Frame(m) + rest) == TooLarge(|m|)
  {
    HeaderOf(m, rest);
    var s := Frame(m) + rest;
    if |m| <= MAX_MESSAGE_SIZE {
      assert s[4..4 + |m|] == m;
    } else if |m| >= UINT32_RANGE && |m| % UINT32_RANGE <= MAX_MESSAGE_SIZE {
      assert |ReadFrame(s).data| == |m| % UINT32_RANGE;
    }
  }

  /** A length over 2^32 wraps: the peer takes the first |m| mod 2^32 bytes for the message. */
  lemma WrappedLengthCutsMessage(m: Bytes, rest: Bytes)
    requires |m| >= UINT32_RANGE
    requires |m| % UINT32_RANGE <= MAX_MESSAGE_SIZE
    ensures ReadFrame(Frame(m) + rest) == Delivered(m[..|m| % UINT32_RANGE])
  {
    HeaderOf(m, rest);
    var n := |m| % UINT32_RANGE;
    assert (Frame(m) + rest)[4..4 + n] == m[..n];
  }

  /** Reading past one well-sized frame continues with what follows it. */
  lemma ReadPast(m: Bytes, rest: Bytes, later: seq<Bytes>, end: Outcome)
    requires |m| <= MAX_MESSAGE_SIZE
    requires ReadAll(rest) == (later, end)
    ensures ReadAll(Frame(m) + rest) == ([m] + later, end)
  {
    HeaderOf(m, rest);
    FrameReadBack(m, rest);
    assert (Frame(m) + rest)[4 + |m|..] == rest;
  }

  /** A frame that is cut short yields nothing. */
  lemma ReadPartial(m: Bytes, n: nat)
    requires |m| <= MAX_MESSAGE_SIZE
    requires n < |Frame(m)|
    ensures n < 4 + |m|
    ensures ReadAll(Frame(m)[..n]) == ([], if n == 0 || n == 4 then CleanEnd else Truncated)
  {
    HeaderOf(m, []);
    if n >= 4 {
      assert Frame(m)[..n][..4] == (Frame(m) + [])[..4];
    }
  }

  lemma ReadNothing()
    ensures ReadAll([]) == ([], CleanEnd)
  {
  }

  lemma ReadOversize(big: Bytes, rest: Bytes)
    requires MAX_MESSAGE_SIZE < |big| < UINT32_RANGE
    ensures ReadAll(Frame(big) + rest) == ([], TooLarge(|big|))
  {
    FrameReadBack(big, rest);
  }

  lemma FrameAllHead(msgs: seq<Bytes>)
    requires msgs != []
    ensures FrameAll(msgs) == Frame(msgs[0]) + FrameAll(msgs[1..])
  {
  }

  /** Where the k-th frame ends in the stream. */
  function EndOf(msgs: seq<Bytes>, k: nat): nat
    requires k <= |msgs|
  {
    if k == 0 then 0 else 4 + |msgs[0]| + EndOf(msgs[1..], k - 1)
  }

  /** How a read loop ends when the stream is cut and the last whole frame ended at `boundary`. */
  function EndAt(cut: nat, boundary: nat): Outcome {
    if cut == boundary || cut == boundary + 4 then CleanEnd else Truncated
  }

  lemma {:induction false} EndIsLength(msgs: seq<Bytes>, k: nat)
    requires k <= |msgs|
    ensures EndOf(msgs, k) == |FrameAll(msgs[..k])|
  {
    if k > 0 {
      EndIsLength(msgs[1..], k - 1);
      HeaderOf(msgs[0], []);
      assert msgs[..k][1..] == msgs[1..][..k - 1];
    }
  }

  /** A reader of `s` gets exactly `msgs`, and its loop ends with `end`. */
  predicate Yields(s: Bytes, msgs: seq<Bytes>, end: Outcome) {
    ReadAll(s) == (msgs, end)
  }

  lemma ReadHead(m: Bytes, tail: Bytes, cut: nat, later: seq<Bytes>, end: Outcome)
    requires |m| <= MAX_MESSAGE_SIZE
    requires |Frame(m)| <= cut <= |Frame(m)| + |tail|
    requires Yields(tail[..cut - |Frame(m)|], later, end)
    ensures Yields((Frame(m) + tail)[..cut], [m] + later, end)
  {
    hide ReadAll, Frame, FrameAll;
    var rest := tail[..cut - |Frame(m)|];
    ReadPast(m, rest, later, end);
    assert (Frame(m) + tail)[..cut] == Frame(m) + rest;
  }

  /** A cut inside the first frame, or with no frames at all. */
  lemma CutAtStart(msgs: seq<Bytes>, cut: nat)
    requires Small(msgs) && cut <= |FrameAll(msgs)|
    requires msgs != [] ==> cut < |Frame(msgs[0])|
    ensures Yields(FrameAll(msgs)[..cut], [], EndAt(cut, 0))
  {
    if msgs == [] {
      ReadNothing();
    } else {
      FrameAllHead(msgs);
      ReadPartial(msgs[0], cut);
      hide ReadAll, Frame, FrameAll;
      assert FrameAll(msgs)[..cut] == Frame(msgs[0])[..cut];
    }
  }

  /**
   * Any cut of the byte stream: the loop delivers exactly the k messages whose frames lie wholly
   * before the cut, and it ends silently exactly when the cut falls between two frames or right
   * after a header.
   */
  lemma {:induction false} CutStream(msgs: seq<Bytes>, cut: nat, k: nat)
    requires Small(msgs)
    requires cut <= |FrameAll(msgs)| && k <= |msgs|
    requires EndOf(msgs, k) <= cut
    requires k < |msgs| ==> cut < EndOf(msgs, k + 1)
    ensures Yields(FrameAll(msgs)[..cut], msgs[..k], EndAt(cut, EndOf(msgs, k)))
    decreases k
  {
    if msgs != [] {
      FrameAllHead(msgs);
      HeaderOf(msgs[0], []);
    }
    if k == 0 {
      CutAtStart(msgs, cut);
    } else {
      assert |msgs[0]| <= MAX_MESSAGE_SIZE && Small(msgs[1..]);
      var size := 4 + |msgs[0]|;
      hide ReadAll, Frame, FrameAll, Small, Yields, EndAt;
      CutStream(msgs[1..], cut - size, k - 1);
      ReadHead(msgs[0], FrameAll(msgs[1..]), cut, msgs[1..][..k - 1], EndAt(cut - size, EndOf(msgs[1..], k - 1)));
      assert [msgs[0]] + msgs[1..][..k - 1] == msgs[..k];
    }
  }

  /** Round trip: reading the concatenated frames yields the messages and a clean end. */
  lemma {:induction false} RoundTrip(msgs: seq<Bytes>)
    requires Small(msgs)
    ensures Yields(FrameAll(msgs), msgs, CleanEnd)
  {
    assert msgs[..|msgs|] == msgs;
    EndIsLength(msgs, |msgs|);
    CutStream(msgs, |FrameAll(msgs)|, |msgs|);
    assert FrameAll(msgs)[..|FrameAll(msgs)|] == FrameAll(msgs);
  }

  /** An announced length over 16 MiB is never delivered and ends the stream, whatever came before. */
  lemma {:induction false} OversizeStopsStream(msgs: seq<Bytes>, big: Bytes, rest: Bytes)
    requires Small(msgs)
    requires MAX_MESSAGE_SIZE < |big| < UINT32_RANGE
    ensures Yields(FrameAll(msgs) + (Frame(big) + rest), msgs, TooLarge(|big|))
  {
    hide ReadAll, Frame;
    var tail := Frame(big) + rest;
    if msgs == [] {
      ReadOversize(big, rest);
      assert FrameAll(msgs) + tail == tail;
    } else {
      var rest' := FrameAll(msgs[1..]) + tail;
      OversizeStopsStream(msgs[1..], big, rest);
      ReadPast(msgs[0], rest', msgs[1..], TooLarge(|big|));
      assert [msgs[0]] + msgs[1..] == msgs;
      assert FrameAll(msgs) + tail == Frame(msgs[0]) + rest';
    }
  }
}
