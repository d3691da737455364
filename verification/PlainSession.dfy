/**
 The abridged session without obfuscation: the client sends one byte and then bare frames, the
 server recognises the byte and answers with bare frames.
 */
module PlainSession {
  import opened Options
  import opened Bytes
  import opened Framing
  import opened Obfuscation

  /** The sending half after some packets. */
  function SentAll(ks: Keystream, o: Outbound, ps: seq<Payload>): Outbound {
    if ps == [] then o else Sent(ks, SentAll(ks, o, ps[..|ps| - 1]), ps[|ps| - 1])
  }

  ghost predicate Arriving(chunks: seq<seq<byte>>) {
    forall i :: 0 <= i < |chunks| ==> chunks[i] != []
  }

  /** The server after some portions. */
  function ServerReadAll(ks: Keystream, e: Endpoint, chunks: seq<seq<byte>>): Endpoint
    requires Arriving(chunks)
  {
    if chunks == [] then e
    else ServerRead(ks, ServerReadAll(ks, e, chunks[..|chunks| - 1]), chunks[|chunks| - 1])
  }

  /** The client's receiving half after some portions. */
  function ClientReadAll(ks: Keystream, i: Inbound, chunks: seq<seq<byte>>): Inbound {
    if chunks == [] then i
    else Consumed(ks, Arrived(ClientReadAll(ks, i, chunks[..|chunks| - 1]), chunks[|chunks| - 1]))
  }

  /** Nothing is encrypted: the output grows by the stream of the frames. */
  lemma {:induction false} BareFrames(ks: Keystream, o: Outbound, ps: seq<Payload>)
    requires o.write.None?
    ensures SentAll(ks, o, ps) == Outbound(None, o.output + Stream(ps))
  {
    if ps == [] {
      assert o.output + [] == o.output;
    } else {
      var init, p := ps[..|ps| - 1], ps[|ps| - 1];
      BareFrames(ks, o, init);
      assert init + [p] == ps;
      StreamAppend(init, [p]);
      assert Stream([p]) == Frame(p) + [] == Frame(p);
      Associative(o.output, Stream(init), Frame(p));
    }
  }

  /** An end without keys that has read these bytes. */
  ghost predicate HasRead(i: Inbound, data: seq<byte>) {
    && i.session == Abridged && i.read.None? && i.input == []
    && Result(i.packets, i.reader) == Feed(EMPTY, data)
  }

  lemma {:induction false} ReadMore(ks: Keystream, i: Inbound, data: seq<byte>, chunk: seq<byte>)
    requires HasRead(i, data)
    ensures HasRead(Consumed(ks, Arrived(i, chunk)), data + chunk)
  {
    assert [] + chunk == chunk;
    FeedSplit(EMPTY, data, chunk);
  }

  lemma {:induction false} ConcatSnoc(chunks: seq<seq<byte>>)
    requires chunks != []
    ensures Concat(chunks) == Concat(chunks[..|chunks| - 1]) + chunks[|chunks| - 1]
  {
    if |chunks| == 1 {
      assert chunks[..0] == [] && chunks[1..] == [];
      assert [] + chunks[0] == chunks[0] == chunks[0] + [];
    } else {
      ConcatSnoc(chunks[1..]);
      assert chunks[1..][..|chunks| - 2] == chunks[..|chunks| - 1][1..];
      Associative(chunks[0], Concat(chunks[..|chunks| - 1][1..]), chunks[|chunks| - 1]);
    }
  }

  lemma {:induction false} ClientHasRead(ks: Keystream, i: Inbound, chunks: seq<seq<byte>>)
    requires HasRead(i, [])
    ensures HasRead(ClientReadAll(ks, i, chunks), Concat(chunks))
  {
    if chunks != [] {
      ConcatSnoc(chunks);
      ClientHasRead(ks, i, chunks[..|chunks| - 1]);
      ReadMore(ks, ClientReadAll(ks, i, chunks[..|chunks| - 1]), Concat(chunks[..|chunks| - 1]), chunks[|chunks| - 1]);
    }
  }

  /** The first byte makes the session, whatever follows in the same portion. */
  lemma {:induction false} SignRead(ks: Keystream, chunk: seq<byte>)
    requires chunk != [] && chunk[0] == 0xef
    ensures var e := ServerRead(ks, Endpoint(NEW_INBOUND, NEW_OUTBOUND), chunk);
            HasRead(e.inbound, chunk[1..]) && e.outbound == NEW_OUTBOUND
  {
    assert [] + chunk == chunk;
    var f := Feed(EMPTY, chunk[1..]);
    assert [] + f.packets == f.packets;
  }

  lemma {:induction false} ServerHasRead(ks: Keystream, chunks: seq<seq<byte>>)
    requires Arriving(chunks) && Concat(chunks) != [] && Concat(chunks)[0] == 0xef
    ensures var e := ServerReadAll(ks, Endpoint(NEW_INBOUND, NEW_OUTBOUND), chunks);
            HasRead(e.inbound, Concat(chunks)[1..]) && e.outbound == NEW_OUTBOUND
  {
    var init, last := chunks[..|chunks| - 1], chunks[|chunks| - 1];
    ConcatSnoc(chunks);
    if init == [] {
      assert Concat(init) + last == last;
      SignRead(ks, last);
    } else {
      assert Concat(init) == init[0] + Concat(init[1..]);
      ServerHasRead(ks, init);
      var e := ServerReadAll(ks, Endpoint(NEW_INBOUND, NEW_OUTBOUND), init);
      ReadMore(ks, e.inbound, Concat(init)[1..], last);
      assert Concat(chunks)[1..] == Concat(init)[1..] + last;
    }
  }

  /** The first `k` frames and a part of the next one. */
  ghost predicate Part(ps: seq<Payload>, k: nat, part: seq<byte>) {
    && AllFramable(ps) && k <= |ps|
    && if k == |ps| then part == [] else part <= Frame(ps[k]) && |part| < |Frame(ps[k])|
  }

  lemma {:induction false} FeedOne(data: seq<byte>)
    ensures FeedAll(EMPTY, [data]) == Feed(EMPTY, data)
  {
    ChunksDoNotMatter(EMPTY, [data]);
    assert Concat([data]) == data + [] == data;
  }

  /**
   From the client to the server: the bytes on the wire are the sign and the bare frames, and
   however they arrive, exactly the complete payloads are emitted, with the last byte of each.
   */
  lemma {:induction false} ClientToServer(
    ks: Keystream, ps: seq<Payload>, k: nat, part: seq<byte>, chunks: seq<seq<byte>>)
    requires Part(ps, k, part) && Arriving(chunks) && Concat(chunks) == [0xef] + (Stream(ps[..k]) + part)
    ensures var o := AbridgedStarted(Endpoint(NEW_INBOUND, NEW_OUTBOUND)).outbound;
            SentAll(ks, o, ps).output == [0xef] + Stream(ps)
    ensures var e := ServerReadAll(ks, Endpoint(NEW_INBOUND, NEW_OUTBOUND), chunks);
            e.inbound.session == Abridged && e.inbound.packets == ps[..k] && e.outbound == NEW_OUTBOUND
  {
    var o := AbridgedStarted(Endpoint(NEW_INBOUND, NEW_OUTBOUND)).outbound;
    assert o.output == [0xef];
    BareFrames(ks, o, ps);
    ServerHasRead(ks, chunks);
    var data := Stream(ps[..k]) + part;
    assert ([0xef] + data)[1..] == data;
    FeedOne(data);
    assert Concat([data]) == data + [] == data;
    ExactAndPrompt(ps, k, part, [data]);
  }

  /** And back: the server answers with bare frames, and the client emits exactly the complete ones. */
  lemma {:induction false} ServerToClient(
    ks: Keystream, qs: seq<Payload>, k: nat, part: seq<byte>, chunks: seq<seq<byte>>)
    requires Part(qs, k, part) && Concat(chunks) == Stream(qs[..k]) + part
    ensures SentAll(ks, NEW_OUTBOUND, qs).output == Stream(qs)
    ensures var i := AbridgedStarted(Endpoint(NEW_INBOUND, NEW_OUTBOUND)).inbound;
            ClientReadAll(ks, i, chunks).packets == qs[..k]
  {
    BareFrames(ks, NEW_OUTBOUND, qs);
    assert [] + Stream(qs) == Stream(qs);
    var i := AbridgedStarted(Endpoint(NEW_INBOUND, NEW_OUTBOUND)).inbound;
    NothingFed();
    ClientHasRead(ks, i, chunks);
    var data := Stream(qs[..k]) + part;
    FeedOne(data);
    assert Concat([data]) == data + [] == data;
    ExactAndPrompt(qs, k, part, [data]);
  }

  lemma {:induction false} NothingFed()
    ensures Feed(EMPTY, []) == Result([], EMPTY)
  {
  }
}
