/**
 The abridged framing of `BaseTcpTransport`: how a packet is written to the socket and how
 the packets are cut out of whatever portions of the byte stream arrive.
 */
module Framing {
  import opened Arithmetic
  import opened Bytes

  type Payload = seq<byte>

  const MAX_WORDS: nat := 0x100_0000

  // ---------------------------------------------------------------- writing

  function Header(words: nat): seq<byte> {
    if words < 0x7f then [words] else [0x7f] + Little(words, 3)
  }

  /** The packet written for a payload; its length is counted in words of four bytes. */
  function Frame(p: Payload): seq<byte> {
    Header(|p| / 4) + p
  }

  /** The payloads whose frame says their length. */
  predicate Framable(p: Payload) {
    |p| % 4 == 0 && 0 < |p| < 4 * MAX_WORDS
  }

  predicate AllFramable(ps: seq<Payload>) {
    forall i :: 0 <= i < |ps| ==> Framable(ps[i])
  }

  function Stream(ps: seq<Payload>): seq<byte> {
    if ps == [] then [] else Frame(ps[0]) + Stream(ps[1..])
  }

  // ---------------------------------------------------------------- reading

  /** What is kept between reads; `failed` after an invalid length byte closed the socket. */
  datatype Reader = Reader(buffer: seq<byte>, expected: nat, failed: bool)

  datatype Result = Result(packets: seq<Payload>, reader: Reader)

  const EMPTY: Reader := Reader([], 0, false)

  /** A number of three bytes, least significant first. */
  function Words(b0: nat, b1: nat, b2: nat): nat {
    b0 + b1 * 256 + b2 * 65536
  }

  lemma {:induction false} WordsOf(words: nat)
    ensures var l := Little(words, 3); Words(l[0], l[1], l[2]) == words % MAX_WORDS
  {
    var l := Little(words, 3);
    var a := words / 256;
    var b := a / 256;
    var c := b / 256;
    assert l[0] == words % 256 && l[1] == a % 256 && l[2] == b % 256;
    assert words == c * MAX_WORDS + Words(l[0], l[1], l[2]);
    Div(MAX_WORDS, c, Words(l[0], l[1], l[2]));
  }

  /** The length announced at the start of the buffer and the bytes that announce it. */
  function Announced(buffer: seq<byte>): (nat, nat)
    requires |buffer| >= 4 && buffer[0] <= 0x7f
  {
    if buffer[0] < 0x7f then ((buffer[0] as int) * 4, 1)
    else (Words(buffer[1], buffer[2], buffer[3]) * 4, 4)
  }

  /** What one round of the read loop finds: an error, an incomplete packet, or a packet. */
  datatype Cut = Broken | Incomplete(buffer: seq<byte>, expected: nat) | Packet(payload: Payload, rest: seq<byte>)

  function NextCut(buffer: seq<byte>, expected: nat): (c: Cut)
    ensures c.Packet? ==> |c.rest| < |buffer|
  {
    if |buffer| < 4 then Incomplete(buffer, expected)
    else if expected == 0 && buffer[0] > 0x7f then Broken
    else
      var (length, skip) := if expected == 0 then Announced(buffer) else (expected, 0);
      var rest := buffer[skip..];
      if |rest| < length then Incomplete(rest, length) else Packet(rest[..length], rest[length..])
  }

  /** Cuts complete packets out of the buffer. */
  function Drain(buffer: seq<byte>, expected: nat): Result
    decreases |buffer|
  {
    match NextCut(buffer, expected)
    case Broken => Result([], Reader([], 0, true))
    case Incomplete(b, e) => Result([], Reader(b, e, false))
    case Packet(p, rest) =>
      var after := Drain(rest, 0);
      Result([p] + after.packets, after.reader)
  }

  function Feed(r: Reader, chunk: seq<byte>): Result {
    if r.failed then Result([], r) else Drain(r.buffer + chunk, r.expected)
  }

  function FeedAll(r: Reader, chunks: seq<seq<byte>>): Result
    decreases |chunks|
  {
    if chunks == [] then Result([], r)
    else
      var first := Feed(r, chunks[0]);
      var others := FeedAll(first.reader, chunks[1..]);
      Result(first.packets + others.packets, others.reader)
  }

  /** The part of `BaseTcpTransport` that `onReadyRead` changes. */
  class PacketReader {
    var readBuffer: seq<byte>
    var expectedLength: nat
    var failed: bool
    var packets: seq<Payload>

    ghost function View(): Reader
      reads this
    {
      Reader(readBuffer, expectedLength, failed)
    }

    constructor ()
      ensures View() == EMPTY && packets == []
    {
      readBuffer, expectedLength, failed, packets := [], 0, false, [];
    }

    /** The length at the start of the buffer, in its one-byte or its four-byte form. */
    method TakeLength() returns (valid: bool)
      requires |readBuffer| >= 4
      modifies this`readBuffer, this`expectedLength
      ensures valid == (old(readBuffer[0]) <= 0x7f)
      ensures valid ==> expectedLength == Announced(old(readBuffer)).0
                        && readBuffer == old(readBuffer)[Announced(old(readBuffer)).1..]
    {
      var lengthByte := readBuffer[0];
      if lengthByte < 0x7f {
        expectedLength := (lengthByte as int) * 4;
        readBuffer := readBuffer[1..];
      } else if lengthByte == 0x7f {
        expectedLength := Words(readBuffer[1], readBuffer[2], readBuffer[3]);
        expectedLength := expectedLength * 4;
        readBuffer := readBuffer[4..];
      }
      return lengthByte <= 0x7f;
    }

    /** One round of the read loop; false if the loop is left. */
    method TakePacket() returns (more: bool)
      requires |readBuffer| >= 4 && !failed
      modifies this
      ensures match NextCut(old(readBuffer), old(expectedLength))
              case Broken => !more && View() == Reader([], 0, true) && packets == old(packets)
              case Incomplete(b, e) => !more && View() == Reader(b, e, false) && packets == old(packets)
              case Packet(p, rest) => more && View() == Reader(rest, 0, false) && packets == old(packets) + [p]
    {
      if expectedLength == 0 {
        var valid := TakeLength();
        if !valid {
          readBuffer, expectedLength, failed := [], 0, true;
          return false;
        }
      }
      if |readBuffer| < expectedLength {
        return false;
      }
      var payload := readBuffer[..expectedLength];
      readBuffer := readBuffer[expectedLength..];
      expectedLength := 0;
      packets := packets + [payload];
      return true;
    }

    /** `onReadyRead` with the bytes available on the socket, already decrypted. */
    method OnReadyRead(allData: seq<byte>)
      requires !failed
      modifies this
      ensures View() == Feed(old(View()), allData).reader
      ensures packets == old(packets) + Feed(old(View()), allData).packets
    {
      readBuffer := readBuffer + allData;
      ghost var goal := Drain(readBuffer, expectedLength);
      assert Prefixed([], goal) == goal;
      ghost var taken: seq<Payload> := [];
      while |readBuffer| >= 4
        invariant !failed && packets == old(packets) + taken
        invariant Prefixed(taken, Drain(readBuffer, expectedLength)) == goal
        decreases |readBuffer|
      {
        PrefixedStep(taken, readBuffer, expectedLength);
        ghost var found := NextCut(readBuffer, expectedLength);
        var more := TakePacket();
        if !more {
          return;
        }
        assert packets == old(packets) + (taken + [found.payload]);
        taken := taken + [found.payload];
      }
      PrefixedStep(taken, readBuffer, expectedLength);
    }
  }

  function Prefixed(ps: seq<Payload>, r: Result): Result {
    Result(ps + r.packets, r.reader)
  }

  /** What one round adds to the packets already taken. */
  lemma {:induction false} PrefixedStep(ps: seq<Payload>, buffer: seq<byte>, expected: nat)
    ensures Prefixed(ps, Drain(buffer, expected)) ==
            match NextCut(buffer, expected)
            case Broken => Result(ps, Reader([], 0, true))
            case Incomplete(b, e) => Result(ps, Reader(b, e, false))
            case Packet(p, rest) => Prefixed(ps + [p], Drain(rest, 0))
  {
    if NextCut(buffer, expected).Packet? {
      var p, others := NextCut(buffer, expected).payload, Drain(NextCut(buffer, expected).rest, 0).packets;
      assert ps + ([p] + others) == (ps + [p]) + others;
    }
  }

  // ---------------------------------------------------------------- chunks do not matter

  /** The readers that occur: a pending length is a multiple of four. */
  predicate Aligned(r: Reader) {
    r.expected % 4 == 0
  }

  /** More bytes do not change what one round finds, only what it leaves. */
  lemma {:induction false} CutMore(buffer: seq<byte>, expected: nat, more: seq<byte>)
    requires expected % 4 == 0
    ensures var c, d := NextCut(buffer, expected), NextCut(buffer + more, expected);
            match c
            case Broken => d == Broken
            case Incomplete(b, e) => e % 4 == 0 && d == NextCut(b + more, e)
            case Packet(p, rest) => d == Packet(p, rest + more)
  {
    if |buffer| >= 4 && !(expected == 0 && buffer[0] > 0x7f) {
      var (length, skip) := if expected == 0 then Announced(buffer) else (expected, 0);
      var rest := buffer[skip..];
      assert (buffer + more)[skip..] == rest + more;
      if |rest| >= length {
        assert (rest + more)[..length] == rest[..length];
        assert (rest + more)[length..] == rest[length..] + more;
      }
    }
  }

  /** Draining in two portions gives the same packets and the same reader as in one. */
  lemma {:induction false} DrainSplit(buffer: seq<byte>, expected: nat, more: seq<byte>)
    requires expected % 4 == 0
    ensures var a := Drain(buffer, expected);
            var b := Feed(a.reader, more);
            Drain(buffer + more, expected) == Result(a.packets + b.packets, b.reader) && Aligned(a.reader)
    decreases |buffer|
  {
    CutMore(buffer, expected, more);
    match NextCut(buffer, expected)
    case Broken =>
    case Incomplete(b, e) => assert [] + Drain(b + more, e).packets == Drain(b + more, e).packets;
    case Packet(p, rest) =>
      DrainSplit(rest, 0, more);
      var a, b := Drain(rest, 0), Feed(Drain(rest, 0).reader, more);
      assert [p] + (a.packets + b.packets) == ([p] + a.packets) + b.packets;
  }

  lemma {:induction false} FeedSplit(r: Reader, a: seq<byte>, b: seq<byte>)
    requires Aligned(r)
    ensures var x := Feed(r, a);
            var y := Feed(x.reader, b);
            Feed(r, a + b) == Result(x.packets + y.packets, y.reader) && Aligned(x.reader)
  {
    if !r.failed {
      DrainSplit(r.buffer + a, r.expected, b);
      assert r.buffer + (a + b) == (r.buffer + a) + b;
    }
  }

  /** However a byte stream is cut into portions, the packets and the reader are the same. */
  lemma {:induction false} ChunksDoNotMatter(r: Reader, chunks: seq<seq<byte>>)
    requires Aligned(r) && Feed(r, []) == Result([], r)
    ensures FeedAll(r, chunks) == Feed(r, Concat(chunks))
    decreases |chunks|
  {
    if chunks != [] {
      FeedSplit(r, chunks[0], Concat(chunks[1..]));
      Settled(r, chunks[0]);
      ChunksDoNotMatter(Feed(r, chunks[0]).reader, chunks[1..]);
    }
  }

  /** After a read, nothing more can be cut out. */
  lemma {:induction false} Settled(r: Reader, chunk: seq<byte>)
    requires Aligned(r)
    ensures Feed(Feed(r, chunk).reader, []) == Result([], Feed(r, chunk).reader)
  {
    if !r.failed {
      DrainSettled(r.buffer + chunk, r.expected);
    }
  }

  lemma {:induction false} DrainSettled(buffer: seq<byte>, expected: nat)
    requires expected % 4 == 0
    ensures Feed(Drain(buffer, expected).reader, []) == Result([], Drain(buffer, expected).reader)
    decreases |buffer|
  {
    CutMore(buffer, expected, []);
    assert buffer + [] == buffer;
    match NextCut(buffer, expected)
    case Broken =>
    case Incomplete(b, e) => assert b + [] == b;
    case Packet(p, rest) => DrainSettled(rest, 0);
  }

  // ---------------------------------------------------------------- what is written is read

  lemma {:induction false} HeaderWraps(words: nat, rest: seq<byte>)
    requires words >= 0x7f && |rest| >= 4
    ensures var s := Header(words) + rest;
            s[0] == 0x7f && Announced(s) == (4 * (words % MAX_WORDS), 4) && |Header(words)| == 4 && s[4..] == rest
  {
    var l, s := Little(words, 3), Header(words) + rest;
    assert s[1] == l[0] && s[2] == l[1] && s[3] == l[2];
    WordsOf(words);
  }

  lemma {:induction false} ShortHeader(words: nat, rest: seq<byte>)
    requires words < 0x7f && |rest| >= 4
    ensures var s := [words] + rest; |s| >= 4 && s[0] == words && Announced(s) == (4 * words, 1)
  {
  }

  lemma {:induction false} HeaderAnnounces(words: nat, rest: seq<byte>)
    requires 0 < words < MAX_WORDS && |rest| >= 4
    ensures var s := Header(words) + rest;
            |s| >= 4 && s[0] <= 0x7f && Announced(s) == (4 * words, |Header(words)|)
  {
    if words >= 0x7f {
      HeaderWraps(words, rest);
      Div(MAX_WORDS, 0, words);
    } else {
      ShortHeader(words, rest);
    }
  }

  /** A frame at the start of the buffer is cut out, whatever follows. */
  lemma {:induction false} FrameRead(p: Payload, more: seq<byte>)
    requires Framable(p)
    ensures var after := Drain(more, 0);
            Drain(Frame(p) + more, 0) == Result([p] + after.packets, after.reader)
  {
    var s := Frame(p) + more;
    assert s == Header(|p| / 4) + (p + more);
    HeaderAnnounces(|p| / 4, p + more);
    var rest := s[|Header(|p| / 4)|..];
    assert rest == p + more;
    assert rest[..|p|] == p && rest[|p|..] == more;
    assert NextCut(s, 0) == Packet(p, more);
  }

  lemma {:induction false} StreamRead(ps: seq<Payload>)
    requires AllFramable(ps)
    ensures Drain(Stream(ps), 0) == Result(ps, EMPTY)
    decreases |ps|
  {
    if ps != [] {
      StreamRead(ps[1..]);
      FrameRead(ps[0], Stream(ps[1..]));
      assert [ps[0]] + ps[1..] == ps;
    }
  }

  /** A frame of which the last byte is missing yields nothing yet. */
  lemma {:induction false} PartialFrame(p: Payload, t: seq<byte>)
    requires Framable(p) && t <= Frame(p) && |t| < |Frame(p)|
    ensures Drain(t, 0).packets == [] && !Drain(t, 0).reader.failed
  {
    if |t| >= 4 {
      var h := Header(|p| / 4);
      HeaderAnnounces(|p| / 4, p);
      assert t[0] == Frame(p)[0] && t[1] == Frame(p)[1] && t[2] == Frame(p)[2] && t[3] == Frame(p)[3];
      assert Announced(t) == Announced(Frame(p));
    }
  }

  lemma {:induction false} StreamAppend(a: seq<Payload>, b: seq<Payload>)
    ensures Stream(a + b) == Stream(a) + Stream(b)
    decreases |a|
  {
    if a == [] {
      assert a + b == b;
    } else {
      assert (a + b)[1..] == a[1..] + b;
      StreamAppend(a[1..], b);
    }
  }

  /**
   Exact and prompt: however the portions are cut, if they make up the stream of the first `k`
   frames and a part of the next one, then exactly the first `k` payloads were emitted.
   */
  lemma {:induction false} ExactAndPrompt(ps: seq<Payload>, k: nat, part: seq<byte>, chunks: seq<seq<byte>>)
    requires AllFramable(ps)
    requires k <= |ps| && Concat(chunks) == Stream(ps[..k]) + part
    requires if k == |ps| then part == [] else part <= Frame(ps[k]) && |part| < |Frame(ps[k])|
    ensures FeedAll(EMPTY, chunks).packets == ps[..k] && !FeedAll(EMPTY, chunks).reader.failed
    ensures k == |ps| ==> FeedAll(EMPTY, chunks).reader == EMPTY
  {
    ChunksDoNotMatter(EMPTY, chunks);
    assert EMPTY.buffer + Concat(chunks) == Concat(chunks);
    StreamRead(ps[..k]);
    DrainSplit(Stream(ps[..k]), 0, part);
    assert EMPTY.buffer + part == part;
    if k < |ps| {
      PartialFrame(ps[k], part);
    }
    assert ps[..k] + [] == ps[..k];
  }

  /** The form on the wire: one byte of length below 127 words, else 127 and three bytes, lowest first. */
  lemma {:induction false} FrameForm(p: Payload)
    requires Framable(p)
    ensures var s, words := Frame(p), |p| / 4;
            if words < 127 then |s| == |p| + 1 && s[0] == words && s[1..] == p
            else
              && |s| == |p| + 4 && s[0] == 127 && s[4..] == p
              && (s[1] as int) + 256 * (s[2] as int) + 65536 * (s[3] as int) == words
  {
    if |p| / 4 >= 127 {
      HeaderWraps(|p| / 4, p);
      Div(MAX_WORDS, 0, |p| / 4);
    }
  }

  // ---------------------------------------------------------------- exactly the framable ones

  lemma {:induction false} FirstPacket(s: seq<byte>)
    ensures Drain(s, 0).packets != [] ==>
              NextCut(s, 0).Packet? && Drain(s, 0).packets[0] == NextCut(s, 0).payload
  {
  }

  lemma {:induction false} OtherPacket(p: Payload)
    requires !Framable(p) && NextCut(Frame(p), 0).Packet?
    ensures NextCut(Frame(p), 0).payload != p
  {
    var s, words := Frame(p), |p| / 4;
    if words < 0x7f {
      assert s[1..] == p;
      assert NextCut(s, 0).payload == p[..4 * words];
    } else {
      HeaderWraps(words, p);
      assert NextCut(s, 0).payload == p[..4 * (words % MAX_WORDS)];
    }
  }

  /**
   A payload comes back from its frame if and only if it is not empty, its length is a
   multiple of four and the number of words fits into three bytes.
   */
  lemma {:induction false} FrameReadIff(p: Payload)
    ensures Drain(Frame(p), 0).packets == [p] <==> Framable(p)
  {
    if Framable(p) {
      FrameRead(p, []);
      assert Frame(p) + [] == Frame(p);
    } else {
      FirstPacket(Frame(p));
      if Drain(Frame(p), 0).packets != [] {
        OtherPacket(p);
      }
    }
  }
}
