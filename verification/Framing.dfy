/** Cap'n Proto stream framing: what a socket message puts on the wire, and how a receiver
    reads it by the "Serialization Over a Stream" section of the Cap'n Proto encoding
    specification (SocketMessage.hpp, CapnpMessageFrameBuilder.hpp). */
module Framing {
  import opened Wrappers

  type Byte = x: int | 0 <= x < 256

  const U32_MODULUS: nat := 0x1_0000_0000

  /** Whole 8-byte words. */
  type Segment = s: seq<Byte> | |s| % 8 == 0

  const EMPTY_SEGMENT: Segment := []

  /** A message has at least one segment. */
  type Message = m: seq<Segment> | |m| > 0 witness [EMPTY_SEGMENT]

  // ----------------------------------------------------------------- the writer

  /** Storing a `size_t` in a `uint32_t` slot. */
  function U32(n: int): nat { n % U32_MODULUS }

  function SegmentWords(s: Segment): nat { |s| / 8 }

  /** `(count + 2) & ~1`: the header's size in 32-bit words. */
  function FrameSize(count: nat): nat { (count + 2) - (count + 2) % 2 }

  function Sizes(m: seq<Segment>): seq<nat> {
    seq(|m|, i requires 0 <= i < |m| => U32(SegmentWords(m[i])))
  }

  function Header(m: seq<Segment>): seq<nat> {
    [U32(|m| - 1)] + Sizes(m) + (if |m| % 2 == 0 then [0] else [])
  }

  /** A 32-bit word in little-endian memory. */
  function WordBytes(w: nat): seq<Byte> {
    [w % 256, w / 256 % 256, w / 65536 % 256, w / 16777216 % 256]
  }

  function WordsBytes(ws: seq<nat>): seq<Byte> {
    if ws == [] then [] else WordBytes(ws[0]) + WordsBytes(ws[1..])
  }

  function Join(buffers: seq<seq<Byte>>): seq<Byte> {
    if buffers == [] then [] else buffers[0] + Join(buffers[1..])
  }

  /** The buffers of one framed message: the header, then each segment in place. */
  function Buffers(m: seq<Segment>): seq<seq<Byte>> {
    [WordsBytes(Header(m))] + m
  }

  function BatchBuffers(ms: seq<Message>): seq<seq<Byte>> {
    if ms == [] then [] else Buffers(ms[0]) + BatchBuffers(ms[1..])
  }

  /** Segment counts and sizes fit their 32-bit slots. */
  predicate Fits(m: Message) {
    |m| <= U32_MODULUS && forall i :: 0 <= i < |m| ==> SegmentWords(m[i]) < U32_MODULUS
  }

  // ----------------------------------------------------------------- the reader

  function ReadWord(bytes: seq<Byte>, at: nat): nat
    requires at + 4 <= |bytes|
  {
    var b0: int, b1: int, b2: int, b3: int := bytes[at], bytes[at + 1], bytes[at + 2], bytes[at + 3];
    b0 + 256 * b1 + 65536 * b2 + 16777216 * b3
  }

  /** Splits off segments of the given numbers of words. */
  function ReadSegments(bytes: seq<Byte>, sizes: seq<nat>): Option<(seq<Segment>, seq<Byte>)> {
    if sizes == [] then Some(([], bytes))
    else if 8 * sizes[0] > |bytes| then None
    else
      var first: Segment := bytes[..8 * sizes[0]];
      match ReadSegments(bytes[8 * sizes[0]..], sizes[1..])
      case None => None
      case Some((others, rest)) => Some(([first] + others, rest))
  }

  /** The segment count and sizes, padded up to a whole 8-byte word. */
  function HeaderBytes(count: nat): (r: nat)
    ensures r >= 4 + 4 * count
  {
    (4 * (1 + count) + 7) / 8 * 8
  }

  function ReadSizes(bytes: seq<Byte>, count: nat): seq<nat>
    requires 4 + 4 * count <= |bytes|
  {
    seq(count, i requires 0 <= i < count => ReadWord(bytes, 4 + 4 * i))
  }

  /** One message from the front of a stream: the segment count less one, the sizes, the
      padding, the segments. */
  function ReadMessage(bytes: seq<Byte>): (r: Option<(Message, seq<Byte>)>)
    ensures r.Some? ==> |r.value.1| < |bytes|
  {
    if |bytes| < 4 then None else
      var count := ReadWord(bytes, 0) + 1;
      if HeaderBytes(count) > |bytes| then None else
        var body := bytes[HeaderBytes(count)..];
        match ReadSegments(body, ReadSizes(bytes, count))
        case None => None
        case Some((segments, rest)) =>
          ReadSegmentsShape(body, ReadSizes(bytes, count));
          Some((segments, rest))
  }

  lemma ReadSegmentsShape(bytes: seq<Byte>, sizes: seq<nat>)
    ensures match ReadSegments(bytes, sizes)
            case None => true
            case Some((segments, rest)) =>
              && |segments| == |sizes| && |rest| <= |bytes|
              && forall i :: 0 <= i < |sizes| ==> |segments[i]| == 8 * sizes[i]
  {
  }

  /** All messages of a stream, or None when it does not end with a whole message. */
  function ReadAll(bytes: seq<Byte>): Option<seq<Message>>
    decreases |bytes|
  {
    if bytes == [] then Some([])
    else match ReadMessage(bytes)
      case None => None
      case Some((m, rest)) =>
        match ReadAll(rest)
        case None => None
        case Some(ms) => Some([m] + ms)
  }

  // ----------------------------------------------------------------- round trip

  lemma WordRoundTrip(w: nat)
    requires w < U32_MODULUS
    ensures ReadWord(WordBytes(w), 0) == w
  {
    assert w / 256 / 256 == w / 65536;
    assert w / 65536 / 256 == w / 16777216;
  }

  lemma {:induction false} WordsAt(ws: seq<nat>, i: nat)
    requires i < |ws|
    ensures |WordsBytes(ws)| == 4 * |ws|
    ensures WordsBytes(ws)[4 * i..4 * i + 4] == WordBytes(ws[i])
  {
    if |ws| > 1 {
      WordsAt(ws[1..], if i == 0 then 0 else i - 1);
      if i > 0 {
        assert WordsBytes(ws)[4 * i..4 * i + 4] == WordsBytes(ws[1..])[4 * (i - 1)..4 * (i - 1) + 4];
      }
    } else {
      assert WordsBytes(ws[1..]) == [];
    }
  }

  lemma ReadHeaderWord(ws: seq<nat>, rest: seq<Byte>, i: nat)
    requires i < |ws| && ws[i] < U32_MODULUS
    ensures 4 * i + 4 <= |WordsBytes(ws) + rest|
    ensures ReadWord(WordsBytes(ws) + rest, 4 * i) == ws[i]
  {
    WordsAt(ws, i);
    WordRoundTrip(ws[i]);
    var b := WordsBytes(ws);
    var w := b[4 * i..4 * i + 4];
    assert w[0] == b[4 * i] && w[1] == b[4 * i + 1] && w[2] == b[4 * i + 2] && w[3] == b[4 * i + 3];
  }

  lemma {:induction false} SegmentsRoundTrip(m: seq<Segment>, rest: seq<Byte>)
    ensures ReadSegments(Join(m) + rest, seq(|m|, i requires 0 <= i < |m| => SegmentWords(m[i])))
              == Some((m, rest))
  {
    var sizes := seq(|m|, i requires 0 <= i < |m| => SegmentWords(m[i]));
    if m == [] {
      assert Join(m) + rest == rest;
    } else {
      var tail := m[1..];
      assert sizes[1..] == seq(|tail|, i requires 0 <= i < |tail| => SegmentWords(tail[i]));
      var all := Join(m) + rest;
      assert all == m[0] + (Join(tail) + rest);
      assert all[..|m[0]|] == m[0] && all[|m[0]|..] == Join(tail) + rest;
      SegmentsRoundTrip(tail, rest);
      assert [m[0]] + tail == m;
    }
  }

  lemma FrameSizeInBytes(n: nat)
    ensures FrameSize(n) % 2 == 0 && 4 * FrameSize(n) == HeaderBytes(n)
  {
    var k := n / 2;
    if n % 2 == 0 { assert n == 2 * k; } else { assert n == 2 * k + 1; }
  }

  /** The header has exactly the reserved size, a whole number of 8-byte words. */
  lemma HeaderSize(m: Message)
    ensures |Header(m)| == FrameSize(|m|)
    ensures |WordsBytes(Header(m))| == 4 * FrameSize(|m|) == HeaderBytes(|m|)
  {
    FrameSizeInBytes(|m|);
    assert |Header(m)| == FrameSize(|m|);
    WordsAt(Header(m), 0);
  }

  lemma JoinBuffers(m: Message, rest: seq<Byte>)
    ensures Join(Buffers(m)) + rest == WordsBytes(Header(m)) + (Join(m) + rest)
  {
    assert Buffers(m)[1..] == m;
  }

  /** What the reader finds in a written header. */
  lemma ReadHeader(m: Message, body: seq<Byte>)
    ensures var bytes := WordsBytes(Header(m)) + body;
            && |bytes| >= HeaderBytes(|m|) && bytes[HeaderBytes(|m|)..] == body
            && ReadWord(bytes, 0) == U32(|m| - 1)
            && ReadSizes(bytes, |m|) == Sizes(m)
  {
    var ws := Header(m);
    var bytes := WordsBytes(ws) + body;
    HeaderSize(m);
    ReadHeaderWord(ws, body, 0);
    forall i | 0 <= i < |m| ensures ReadSizes(bytes, |m|)[i] == Sizes(m)[i] {
      ReadHeaderWord(ws, body, i + 1);
    }
  }

  lemma SizesRoundTrip(m: Message, rest: seq<Byte>)
    requires Fits(m)
    ensures ReadSegments(Join(m) + rest, Sizes(m)) == Some((m, rest))
  {
    assert Sizes(m) == seq(|m|, i requires 0 <= i < |m| => SegmentWords(m[i]));
    SegmentsRoundTrip(m, rest);
  }

  lemma ReadMessageParts(bytes: seq<Byte>, m: Message, rest: seq<Byte>)
    requires HeaderBytes(|m|) <= |bytes| && ReadWord(bytes, 0) + 1 == |m|
    requires ReadSegments(bytes[HeaderBytes(|m|)..], ReadSizes(bytes, |m|)) == Some((m, rest))
    ensures ReadMessage(bytes) == Some((m, rest))
  {
  }

  /** A framed message reads back as itself, and the reader stops exactly at its end. */
  lemma MessageRoundTrip(m: Message, rest: seq<Byte>)
    requires Fits(m)
    ensures ReadMessage(Join(Buffers(m)) + rest) == Some((m, rest))
  {
    var body := Join(m) + rest;
    ReadHeader(m, body);
    SizesRoundTrip(m, rest);
    ReadMessageParts(WordsBytes(Header(m)) + body, m, rest);
    JoinBuffers(m, rest);
  }

  /** Whatever is read has the count and the sizes of the header. */
  lemma ReadIsSized(bytes: seq<Byte>, m: Message, rest: seq<Byte>)
    requires ReadMessage(bytes) == Some((m, rest))
    ensures |bytes| >= HeaderBytes(|m|) && |m| == ReadWord(bytes, 0) + 1
    ensures forall i :: 0 <= i < |m| ==> |m[i]| == 8 * ReadSizes(bytes, |m|)[i]
  {
    var count := ReadWord(bytes, 0) + 1;
    ReadSegmentsShape(bytes[HeaderBytes(count)..], ReadSizes(bytes, count));
  }

  lemma SizesFit(m: Message)
    requires |m| == U32(|m| - 1) + 1 && forall i :: 0 <= i < |m| ==> |m[i]| == 8 * Sizes(m)[i]
    ensures Fits(m)
  {
    forall i | 0 <= i < |m| ensures SegmentWords(m[i]) < U32_MODULUS {
      assert Sizes(m)[i] == U32(SegmentWords(m[i]));
    }
  }

  /** A message that is read back under its own header fits that header. */
  lemma ReadBackFits(m: Message, body: seq<Byte>, rest: seq<Byte>)
    requires ReadMessage(WordsBytes(Header(m)) + body) == Some((m, rest))
    ensures Fits(m)
  {
    ReadHeader(m, body);
    ReadIsSized(WordsBytes(Header(m)) + body, m, rest);
    SizesFit(m);
  }

  /** Fitting the 32-bit slots is exactly what the round trip needs. */
  lemma RoundTripIffFits(m: Message, rest: seq<Byte>)
    ensures ReadMessage(Join(Buffers(m)) + rest) == Some((m, rest)) <==> Fits(m)
  {
    JoinBuffers(m, rest);
    if Fits(m) {
      MessageRoundTrip(m, rest);
    } else if ReadMessage(Join(Buffers(m)) + rest) == Some((m, rest)) {
      ReadBackFits(m, Join(m) + rest, rest);
      assert false;
    }
  }

  lemma {:induction false} JoinAppend(a: seq<seq<Byte>>, b: seq<seq<Byte>>)
    ensures Join(a + b) == Join(a) + Join(b)
  {
    if a == [] {
      assert a + b == b;
    } else {
      assert (a + b)[1..] == a[1..] + b;
      JoinAppend(a[1..], b);
    }
  }

  predicate AllFit(ms: seq<Message>) {
    forall i :: 0 <= i < |ms| ==> Fits(ms[i])
  }

  lemma ReadAllFirst(ms: seq<Message>, bytes: seq<Byte>)
    requires ms != [] && ReadAll(bytes) == Some(ms)
    ensures exists rest :: ReadMessage(bytes) == Some((ms[0], rest)) && ReadAll(rest) == Some(ms[1..])
  {
  }

  lemma ReadAllCons(m: Message, ms: seq<Message>, bytes: seq<Byte>, rest: seq<Byte>)
    requires bytes != [] && ReadMessage(bytes) == Some((m, rest)) && ReadAll(rest) == Some(ms)
    ensures ReadAll(bytes) == Some([m] + ms)
  {
  }

  lemma BatchFirst(ms: seq<Message>)
    requires ms != []
    ensures var rest := Join(BatchBuffers(ms[1..]));
            && Join(BatchBuffers(ms)) == Join(Buffers(ms[0])) + rest
            && Join(Buffers(ms[0])) + rest == WordsBytes(Header(ms[0])) + (Join(ms[0]) + rest)
            && Join(BatchBuffers(ms)) != []
  {
    JoinAppend(Buffers(ms[0]), BatchBuffers(ms[1..]));
    JoinBuffers(ms[0], Join(BatchBuffers(ms[1..])));
    HeaderSize(ms[0]);
  }

  lemma {:induction false} FittingBatch(ms: seq<Message>)
    requires AllFit(ms)
    ensures ReadAll(Join(BatchBuffers(ms))) == Some(ms)
  {
    if ms != [] {
      var rest := Join(BatchBuffers(ms[1..]));
      BatchFirst(ms);
      FittingBatch(ms[1..]);
      MessageRoundTrip(ms[0], rest);
      ReadAllCons(ms[0], ms[1..], Join(BatchBuffers(ms)), rest);
      assert [ms[0]] + ms[1..] == ms;
    }
  }

  lemma {:induction false} ReadBackBatchFits(ms: seq<Message>)
    requires ReadAll(Join(BatchBuffers(ms))) == Some(ms)
    ensures AllFit(ms)
  {
    if ms != [] {
      var bytes, rest := Join(BatchBuffers(ms)), Join(BatchBuffers(ms[1..]));
      BatchFirst(ms);
      ReadAllFirst(ms, bytes);
      var rest' :| ReadMessage(bytes) == Some((ms[0], rest')) && ReadAll(rest') == Some(ms[1..]);
      ReadBackFits(ms[0], Join(ms[0]) + rest, rest');
      MessageRoundTrip(ms[0], rest);
      ReadBackBatchFits(ms[1..]);
      assert forall i :: 0 < i < |ms| ==> ms[i] == ms[1..][i - 1];
    }
  }

  /** The concatenated buffers of a batch decode to the batch's messages in order, if and
      only if each of them fits. */
  lemma BatchRoundTripIff(ms: seq<Message>)
    ensures ReadAll(Join(BatchBuffers(ms))) == Some(ms) <==> AllFit(ms)
  {
    if AllFit(ms) {
      FittingBatch(ms);
    } else if ReadAll(Join(BatchBuffers(ms))) == Some(ms) {
      ReadBackBatchFits(ms);
      assert false;
    }
  }

  /** A segment of 2^32 words does not fit; framed, it reads back as something else. */
  lemma HugeSegmentIsLost(rest: seq<Byte>)
    ensures var huge: Segment := seq(8 * U32_MODULUS, _ => 0);
            ReadMessage(Join(Buffers([huge])) + rest) != Some(([huge], rest))
  {
    var huge: Segment := seq(8 * U32_MODULUS, _ => 0);
    assert SegmentWords(huge) == U32_MODULUS;
    RoundTripIffFits([huge], rest);
  }

  lemma {:induction false} BatchAppend(a: seq<Message>, b: seq<Message>)
    ensures BatchBuffers(a + b) == BatchBuffers(a) + BatchBuffers(b)
  {
    if a == [] {
      assert a + b == b;
    } else {
      assert (a + b)[1..] == a[1..] + b;
      BatchAppend(a[1..], b);
    }
  }

  lemma BatchSnoc(a: seq<Message>, m: Message)
    ensures BatchBuffers(a + [m]) == BatchBuffers(a) + Buffers(m)
  {
    BatchAppend(a, [m]);
    assert BatchBuffers([m]) == Buffers(m) + BatchBuffers([]);
  }

  /** On the wire: the number of segments less one and their sizes in words, four bytes each
      with the low one first, padded to whole words, and then the segments. */
  lemma WireOfOne(a: Segment)
    requires |a| == 8
    ensures Join(Buffers([a])) == [0, 0, 0, 0, 1, 0, 0, 0] + a
  {
    var header := WordsBytes(Header([a]));
    assert Header([a]) == [0, 1] + [];
    BytesOfWords(0, 1, []);
    JoinTwo(header, a, []);
    assert Buffers([a]) == [header, a] + [];
  }

  /** Two segments take a header of four words. */
  lemma WireOfTwo(a: Segment, b: Segment)
    requires |a| == 8 && |b| == 16
    ensures Join(Buffers([a, b])) == [1, 0, 0, 0, 1, 0, 0, 0] + [2, 0, 0, 0, 0, 0, 0, 0] + a + b
  {
    var header := WordsBytes(Header([a, b]));
    HeaderOfTwo(a, b);
    BytesOfWords(1, 1, [2, 0]);
    BytesOfWords(2, 0, []);
    assert [2, 0] + [] == [2, 0];
    JoinTwo(header, a, [b]);
    assert Join([b]) == b by { assert [b][1..] == []; }
    assert Buffers([a, b]) == [header, a] + [b];
  }

  lemma HeaderOfTwo(a: Segment, b: Segment)
    requires |a| == 8 && |b| == 16
    ensures Header([a, b]) == [1, 1] + [2, 0]
  {
    assert Sizes([a, b]) == [1, 2];
  }

  lemma BytesOfWords(v: nat, w: nat, rest: seq<nat>)
    requires v < 256 && w < 256
    ensures WordsBytes([v, w] + rest) == [v, 0, 0, 0, w, 0, 0, 0] + WordsBytes(rest)
  {
    assert ([v, w] + rest)[1..] == [w] + rest && ([w] + rest)[1..] == rest;
  }

  lemma JoinTwo(a: seq<Byte>, b: seq<Byte>, rest: seq<seq<Byte>>)
    ensures Join([a, b] + rest) == a + b + Join(rest)
  {
    assert ([a, b] + rest)[1..] == [b] + rest && ([b] + rest)[1..] == rest;
  }

  // ------------------------------------------------------------------ the classes

  /** A message that frames itself without copying its segments. */
  class SharedSocketMessage {
    const segments: Message
    var frame: seq<nat>
    var capacity: nat
    var framedBuffers: seq<BufferRef>

    constructor (segments: Message)
      ensures this.segments == segments && frame == [] && framedBuffers == [] && capacity == 0
    {
      this.segments := segments;
      frame, capacity, framedBuffers := [], 0, [];
    }

    /** `push_back` within the reserved size, which does not move the words. */
    method PushFrame(word: int)
      requires |frame| < capacity
      modifies this`frame
      ensures frame == old(frame) + [U32(word)]
    {
      frame := frame + [U32(word)];
    }

    /** The memory the buffers refer to. */
    function GetBuffers(): seq<seq<Byte>>
      reads this
    {
      seq(|framedBuffers|, i requires 0 <= i < |framedBuffers| reads this =>
        match framedBuffers[i]
        case FrameWords(count) => WordsBytes(if count <= |frame| then frame[..count] else frame)
        case SegmentBytes(bytes) => bytes)
    }

    ghost predicate Framed()
      reads this
    {
      && frame == Header(segments) && |frame| == capacity
      && GetBuffers() == Buffers(segments)
      && framedBuffers != [] && framedBuffers[0] == FrameWords(|frame|)
    }

    method CreateFrame()
      requires framedBuffers == [] ==> frame == []
      requires framedBuffers != [] ==> Framed()
      modifies this
      ensures Framed()
    {
      if framedBuffers != [] {
        return;
      }
      var segmentCount := |segments|;
      var frameSize := FrameSize(segmentCount);
      HeaderSize(segments);
      capacity := frameSize;
      PushFrame(segmentCount - 1);
      framedBuffers := [FrameWords(frameSize)];
      for i := 0 to segmentCount
        invariant capacity == frameSize && frame == [U32(segmentCount - 1)] + Sizes(segments)[..i]
        invariant |framedBuffers| == i + 1 && framedBuffers[0] == FrameWords(frameSize)
        invariant forall j :: 0 <= j < i ==> framedBuffers[j + 1] == SegmentBytes(segments[j])
      {
        PushFrame(SegmentWords(segments[i]));
        framedBuffers := framedBuffers + [SegmentBytes(segments[i])];
      }
      if segmentCount % 2 == 0 {
        PushFrame(0);
      }
      assert frame == Header(segments);
      BuffersOfFrame();
    }

    lemma BuffersOfFrame()
      requires frame == Header(segments) && |framedBuffers| == |segments| + 1
      requires framedBuffers[0] == FrameWords(|frame|)
      requires forall j :: 0 <= j < |segments| ==> framedBuffers[j + 1] == SegmentBytes(segments[j])
      ensures GetBuffers() == Buffers(segments)
    {
      assert frame[..|frame|] == frame;
      forall i | 0 <= i < |framedBuffers| ensures GetBuffers()[i] == Buffers(segments)[i] {
        if i > 0 { assert framedBuffers[i - 1 + 1] == SegmentBytes(segments[i - 1]); }
      }
    }
  }

  /** A `const_buffer`: the first words of the frame, or a segment's own bytes. */
  datatype BufferRef = FrameWords(count: nat) | SegmentBytes(bytes: Segment)

  /** The second implementation of the header. */
  class FrameBuilder {
    var frame: seq<nat>
    var segmentNum: nat

    constructor ()
      ensures frame == []
    {
      frame, segmentNum := [], 0;
    }

    /** `resize` fills the new words with zeros. */
    method Init(segmentCount: nat)
      requires frame == []
      modifies this
      ensures frame == [U32(segmentCount - 1)] + seq(FrameSize(segmentCount) - 1, _ => 0)
      ensures segmentNum == 1
    {
      frame := seq(FrameSize(segmentCount), _ => 0);
      frame := frame[0 := U32(segmentCount - 1)];
      segmentNum := 1;
    }

    method AddSegment(segmentSize: nat)
      requires segmentNum < |frame|
      modifies this
      ensures frame == old(frame)[old(segmentNum) := U32(segmentSize)]
      ensures segmentNum == old(segmentNum) + 1
    {
      frame := frame[segmentNum := U32(segmentSize)];
      segmentNum := segmentNum + 1;
    }

    method Finalize(segmentCount: nat)
      requires segmentCount % 2 == 0 ==> segmentCount + 1 < |frame|
      modifies this`frame
      ensures frame == if segmentCount % 2 == 0 then old(frame)[segmentCount + 1 := 0] else old(frame)
    {
      if segmentCount % 2 == 0 {
        frame := frame[segmentCount + 1 := 0];
      }
    }
  }

  /** Driving the builder over a message gives the header that CreateFrame writes. */
  method BuildFrame(m: Message) returns (frame: seq<nat>)
    ensures frame == Header(m)
  {
    var builder := new FrameBuilder();
    builder.Init(|m|);
    for i := 0 to |m|
      invariant |builder.frame| == FrameSize(|m|) && builder.segmentNum == i + 1
      invariant builder.frame[..i + 1] == [U32(|m| - 1)] + Sizes(m)[..i]
      invariant forall j :: i < j < |builder.frame| ==> builder.frame[j] == 0
    {
      builder.AddSegment(SegmentWords(m[i]));
    }
    builder.Finalize(|m|);
    frame := builder.frame;
    HeaderSize(m);
    assert frame[..|m| + 1] == [U32(|m| - 1)] + Sizes(m);
    assert frame == frame[..|m| + 1] + frame[|m| + 1..];
  }
}
