/**
 Every run of an obfuscated connection: both ends send at any time, the bytes arrive in any
 portions, and each end emits exactly what the other one sent.
 */
module ObfuscationRuns {
  import opened Options
  import opened Bytes
  import opened Framing
  import opened Obfuscation

  /** One direction: the sender's half, the bytes in flight, the receiver's half and the payloads sent. */
  datatype Lane = Lane(out: Outbound, flight: seq<byte>, into: Inbound, sent: seq<Payload>) {
    /** How many bytes have arrived. */
    function Received(): int {
      |out.output| - |flight|
    }
  }

  /** `up` leads from the client to the server, `down` from the server to the client. */
  datatype World = World(up: Lane, down: Lane) {
    function Server(): Endpoint {
      Endpoint(up.into, down.out)
    }
  }

  datatype Step =
    | ClientSends(p: Payload)
    | ServerSends(p: Payload)
    | ServerReads(n: nat)
    | ClientReads(n: nat)

  function Start(ks: Keystream, h: Handshake): World
    requires h.Valid()
  {
    var client := ClientStarted(ks, Endpoint(NEW_INBOUND, NEW_OUTBOUND), h);
    World(
      Lane(client.outbound, client.outbound.output, NEW_INBOUND, []),
      Lane(NEW_OUTBOUND, [], client.inbound, []))
  }

  predicate Enabled(w: World, s: Step) {
    match s
    case ClientSends(p) => Framable(p)
    case ServerSends(p) => Framable(p) && w.up.into.session != Unknown
    case ServerReads(n) => 0 < n <= |w.up.flight|
    case ClientReads(n) => 0 < n <= |w.down.flight|
  }

  function Sending(ks: Keystream, l: Lane, p: Payload): Lane {
    l.(out := Sent(ks, l.out, p), flight := l.flight + Written(ks, l.out, p), sent := l.sent + [p])
  }

  function After(ks: Keystream, w: World, s: Step): World
    requires Enabled(w, s)
  {
    match s
    case ClientSends(p) => w.(up := Sending(ks, w.up, p))
    case ServerSends(p) => w.(down := Sending(ks, w.down, p))
    case ServerReads(n) =>
      var server := ServerRead(ks, w.Server(), w.up.flight[..n]);
      World(w.up.(into := server.inbound, flight := w.up.flight[n..]), w.down.(out := server.outbound))
    case ClientReads(n) =>
      var into := Consumed(ks, Arrived(w.down.into, w.down.flight[..n]));
      w.(down := w.down.(into := into, flight := w.down.flight[n..]))
  }

  predicate IsRun(ks: Keystream, h: Handshake, steps: seq<Step>)
    requires h.Valid()
    decreases |steps|, 0
  {
    steps ==
      [] || (IsRun(ks, h, steps[..|steps| - 1]) && Enabled(RunOf(ks, h, steps[..|steps| - 1]), steps[|steps| - 1]))
  }

  function RunOf(ks: Keystream, h: Handshake, steps: seq<Step>): World
    requires h.Valid() && IsRun(ks, h, steps)
    decreases |steps|
  {
    if steps == [] then Start(ks, h) else After(ks, RunOf(ks, h, steps[..|steps| - 1]), steps[|steps| - 1])
  }

  // ---------------------------------------------------------------- one direction

  /** The end has read `k` bytes that carry the plain text `plain`, encrypted from `c` on. */
  ghost predicate Receiving(i: Inbound, c: Cipher, plain: seq<byte>, k: nat) {
    && k <= |plain| && i.session == Obfuscated && i.input == []
    && i.read == Some(c.Advanced(k))
    && Result(i.packets, i.reader) == Feed(EMPTY, plain[..k])
  }

  lemma {:induction false} CryptSlice(ks: Keystream, c: Cipher, s: seq<byte>, i: nat, j: nat)
    requires i <= j <= |s|
    ensures Crypt(ks, c, s)[i..j] == Crypt(ks, c.Advanced(i), s[i..j])
  {
    assert s == s[..i] + s[i..j] + s[j..];
    CryptSplit(ks, c, s[..i] + s[i..j], s[j..]);
    CryptSplit(ks, c, s[..i], s[i..j]);
  }

  lemma {:induction false} Decrypted(ks: Keystream, c: Cipher, plain: seq<byte>, k: nat, chunk: seq<byte>)
    requires k + |chunk| <= |plain| && chunk == Crypt(ks, c, plain)[k..k + |chunk|]
    ensures Crypt(ks, c.Advanced(k), chunk) == plain[k..k + |chunk|]
  {
    CryptSlice(ks, c, plain, k, k + |chunk|);
    CryptTwice(ks, c.Advanced(k), plain[k..k + |chunk|]);
  }

  lemma {:induction false} ReceiveMore(ks: Keystream, i: Inbound, c: Cipher, plain: seq<byte>, k: nat, chunk: seq<byte>)
    requires Receiving(i, c, plain, k) && k + |chunk| <= |plain|
    requires chunk == Crypt(ks, c, plain)[k..k + |chunk|]
    ensures Receiving(Consumed(ks, i.(input := chunk)), c, plain, k + |chunk|)
  {
    var j := k + |chunk|;
    Decrypted(ks, c, plain, k, chunk);
    FeedSplit(EMPTY, plain[..k], plain[k..j]);
    assert plain[..k] + plain[k..j] == plain[..j];
  }

  lemma {:induction false} ReceiveGrows(i: Inbound, c: Cipher, plain: seq<byte>, k: nat, more: seq<byte>)
    requires Receiving(i, c, plain, k)
    ensures Receiving(i, c, plain + more, k)
  {
    assert (plain + more)[..k] == plain[..k];
  }

  /** Everything written is the prefix and the plain text, encrypted from `c` on; the rest of it is in flight. */
  ghost predicate Carries(ks: Keystream, l: Lane, c: Cipher, prefix: seq<byte>, plain: seq<byte>) {
    && l.out == Outbound(Some(c.Advanced(|plain|)), prefix + Crypt(ks, c, plain))
    && l.Received() >= 0 && l.flight == l.out.output[l.Received()..]
  }

  /** The receiver has the keys and the position of the sender. */
  ghost predicate InTouch(ks: Keystream, l: Lane, c: Cipher, prefix: seq<byte>, plain: seq<byte>) {
    && Carries(ks, l, c, prefix, plain)
    && l.Received() >= |prefix| && Receiving(l.into, c, plain, l.Received() - |prefix|)
  }

  ghost predicate Open(ks: Keystream, l: Lane, c: Cipher, prefix: seq<byte>) {
    AllFramable(l.sent) && InTouch(ks, l, c, prefix, Stream(l.sent))
  }

  lemma {:induction false} TailGrows(all: seq<byte>, n: nat, more: seq<byte>)
    requires n <= |all|
    ensures all[n..] + more == (all + more)[n..]
  {
  }

  lemma {:induction false} SliceOfTail(all: seq<byte>, had: nat, n: nat)
    requires had + n <= |all|
    ensures all[had..][..n] == all[had..had + n] && all[had..][n..] == all[had + n..]
  {
  }

  lemma {:induction false} SliceOfSecond(a: seq<byte>, b: seq<byte>, had: nat, n: nat)
    requires |a| <= had && had + n <= |a + b|
    ensures (a + b)[had..had + n] == b[had - |a|..had - |a| + n]
  {
  }

  lemma {:induction false} StreamSnoc(ps: seq<Payload>, p: Payload)
    ensures Stream(ps + [p]) == Stream(ps) + Frame(p)
  {
    StreamAppend(ps, [p]);
    assert Stream([p][1..]) == [];
    assert Frame(p) + [] == Frame(p);
  }

  lemma {:induction false} CarryMore(ks: Keystream, l: Lane, c: Cipher, prefix: seq<byte>, plain: seq<byte>, p: Payload)
    requires Carries(ks, l, c, prefix, plain)
    ensures Carries(ks, Sending(ks, l, p), c, prefix, plain + Frame(p)) && Sending(ks, l, p).Received() == l.Received()
  {
    var more := Written(ks, l.out, p);
    CryptSplit(ks, c, plain, Frame(p));
    assert prefix + (Crypt(ks, c, plain) + more) == (prefix + Crypt(ks, c, plain)) + more;
    TailGrows(l.out.output, l.Received(), more);
  }

  lemma {:induction false} InTouchSends(
    ks: Keystream, l: Lane, c: Cipher, prefix: seq<byte>, plain: seq<byte>, p: Payload)
    requires InTouch(ks, l, c, prefix, plain)
    ensures InTouch(ks, Sending(ks, l, p), c, prefix, plain + Frame(p))
  {
    CarryMore(ks, l, c, prefix, plain, p);
    ReceiveGrows(l.into, c, plain, l.Received() - |prefix|, Frame(p));
  }

  /** Reading takes bytes from the front of what is in flight. */
  lemma {:induction false} CarryOn(
    ks: Keystream, l: Lane, c: Cipher, prefix: seq<byte>, plain: seq<byte>, n: nat, into: Inbound)
    requires Carries(ks, l, c, prefix, plain) && n <= |l.flight|
    ensures var l' := l.(into := into, flight := l.flight[n..]);
            Carries(ks, l', c, prefix, plain) && l'.Received() == l.Received() + n
    ensures l.flight[..n] == (prefix + Crypt(ks, c, plain))[l.Received()..l.Received() + n]
  {
    SliceOfTail(l.out.output, l.Received(), n);
  }

  /** The bytes at the front are the next ones of the encrypted plain text. */
  lemma {:induction false} NextBytes(ks: Keystream, l: Lane, c: Cipher, prefix: seq<byte>, plain: seq<byte>, n: nat)
    requires Carries(ks, l, c, prefix, plain) && n <= |l.flight| && l.Received() >= |prefix|
    ensures var k := l.Received() - |prefix|;
            k + n <= |plain| && l.flight[..n] == Crypt(ks, c, plain)[k..k + n]
  {
    CarryOn(ks, l, c, prefix, plain, n, l.into);
    SliceOfSecond(prefix, Crypt(ks, c, plain), l.Received(), n);
  }

  lemma {:induction false} ReceiveNext(ks: Keystream, l: Lane, c: Cipher, prefix: seq<byte>, plain: seq<byte>, n: nat)
    requires InTouch(ks, l, c, prefix, plain) && n <= |l.flight|
    ensures Receiving(Consumed(ks, l.into.(input := l.flight[..n])), c, plain, l.Received() - |prefix| + n)
  {
    NextBytes(ks, l, c, prefix, plain, n);
    ReceiveMore(ks, l.into, c, plain, l.Received() - |prefix|, l.flight[..n]);
  }

  lemma {:induction false} InTouchReads(
    ks: Keystream, l: Lane, c: Cipher, prefix: seq<byte>, plain: seq<byte>, n: nat, into: Inbound)
    requires InTouch(ks, l, c, prefix, plain) && n <= |l.flight|
    requires Receiving(into, c, plain, l.Received() - |prefix| + n)
    ensures InTouch(ks, l.(into := into, flight := l.flight[n..]), c, prefix, plain)
  {
    CarryOn(ks, l, c, prefix, plain, n, into);
  }

  lemma {:induction false} OpenSends(ks: Keystream, l: Lane, c: Cipher, prefix: seq<byte>, p: Payload)
    requires Open(ks, l, c, prefix) && Framable(p)
    ensures Open(ks, Sending(ks, l, p), c, prefix)
  {
    StreamSnoc(l.sent, p);
    InTouchSends(ks, l, c, prefix, Stream(l.sent), p);
  }

  lemma {:induction false} OpenReads(ks: Keystream, l: Lane, c: Cipher, prefix: seq<byte>, n: nat)
    requires Open(ks, l, c, prefix) && n <= |l.flight|
    ensures Open(ks, l.(into := Consumed(ks, l.into.(input := l.flight[..n])), flight := l.flight[n..]), c, prefix)
  {
    ReceiveNext(ks, l, c, prefix, Stream(l.sent), n);
    InTouchReads(ks, l, c, prefix, Stream(l.sent), n, Consumed(ks, l.into.(input := l.flight[..n])));
  }

  // ---------------------------------------------------------------- the handshake

  function UpCipher(h: Handshake): Cipher
    requires h.Valid()
  {
    CipherOf(h.source).Advanced(HEADER_SIZE)
  }

  /** The server waits for the rest of the header. */
  ghost predicate Waiting(ks: Keystream, h: Handshake, l: Lane)
    requires h.Valid()
  {
    && AllFramable(l.sent) && Carries(ks, l, UpCipher(h), HeaderOf(ks, h), Stream(l.sent))
    && l.Received() < HEADER_SIZE <= |HeaderOf(ks, h)|
    && l.into == Arrived(NEW_INBOUND, HeaderOf(ks, h)[..l.Received()])
  }

  /** Nothing was sent to the client yet. */
  ghost predicate Silent(h: Handshake, l: Lane)
    requires h.Valid()
  {
    l == Lane(NEW_OUTBOUND, [], NEW_INBOUND.(session := Obfuscated, read := Some(ReversedCipherOf(h.source))), [])
  }

  lemma {:induction false} HeaderBytes(ks: Keystream, h: Handshake)
    requires h.Valid()
    ensures |HeaderOf(ks, h)| == HEADER_SIZE && HeaderOf(ks, h)[0] != 0xef && HeaderOf(ks, h)[8..56] == h.source
  {
    assert HeaderOf(ks, h)[..56] == h.first + h.next + h.source;
    assert HeaderOf(ks, h)[8..56] == HeaderOf(ks, h)[..56][8..];
  }

  lemma {:induction false} WaitingSends(ks: Keystream, h: Handshake, l: Lane, p: Payload)
    requires h.Valid() && Waiting(ks, h, l) && Framable(p)
    ensures Waiting(ks, h, Sending(ks, l, p))
  {
    StreamSnoc(l.sent, p);
    CarryMore(ks, l, UpCipher(h), HeaderOf(ks, h), Stream(l.sent), p);
  }

  lemma {:induction false} PrefixThenTail(a: seq<byte>, b: seq<byte>, had: nat, n: nat)
    requires had <= |a| && had + n <= |a + b|
    ensures a[..had] + (a + b)[had..][..n] == (a + b)[..had + n]
  {
  }

  /** What the server holds after reading: a prefix of what was written. */
  lemma {:induction false} WaitingHolds(ks: Keystream, h: Handshake, l: Lane, n: nat)
    requires h.Valid() && Waiting(ks, h, l) && n <= |l.flight|
    ensures Arrived(l.into, l.flight[..n]) == Arrived(NEW_INBOUND, l.out.output[..l.Received() + n])
  {
    PrefixThenTail(HeaderOf(ks, h), Crypt(ks, UpCipher(h), Stream(l.sent)), l.Received(), n);
    assert [] + HeaderOf(ks, h)[..l.Received()] == HeaderOf(ks, h)[..l.Received()];
    assert [] + l.out.output[..l.Received() + n] == l.out.output[..l.Received() + n];
  }

  /** Bytes of the header never make the server take the session for an abridged one. */
  lemma {:induction false} StillWaiting(ks: Keystream, h: Handshake, l: Lane, out: Outbound, n: nat)
    requires h.Valid() && Waiting(ks, h, l) && 0 < n <= |l.flight| && l.Received() + n < HEADER_SIZE
    ensures var server := ServerRead(ks, Endpoint(l.into, out), l.flight[..n]);
            server.outbound == out && Waiting(ks, h, l.(into := server.inbound, flight := l.flight[n..]))
  {
    HeaderBytes(ks, h);
    WaitingHolds(ks, h, l, n);
    SliceOfTail(l.out.output, l.Received(), n);
    assert l.out.output[..l.Received() + n] == HeaderOf(ks, h)[..l.Received() + n];
  }

  /** With the last byte of the header the server has the keys and the position of the client. */
  lemma {:induction false} Recognises(h: Handshake, input: seq<byte>, out: Outbound, header: seq<byte>, rest: seq<byte>)
    requires h.Valid() && input == header + rest
    requires |header| == HEADER_SIZE && header[0] != 0xef && header[8..56] == h.source
    ensures Recognised(Endpoint(Arrived(NEW_INBOUND, input), out)) ==
            Endpoint(Inbound(Obfuscated, Some(UpCipher(h)), rest, EMPTY, []),
              out.(write := Some(ReversedCipherOf(h.source))))
  {
    assert [] + input == input;
    assert input[8..56] == header[8..56];
  }

  lemma {:induction false} HandshakeDone(ks: Keystream, h: Handshake, l: Lane, out: Outbound, n: nat)
    requires h.Valid() && Waiting(ks, h, l) && 0 < n <= |l.flight| && l.Received() + n >= HEADER_SIZE
    ensures var server := ServerRead(ks, Endpoint(l.into, out), l.flight[..n]);
            && server.outbound == out.(write := Some(ReversedCipherOf(h.source)))
            && Open(ks, l.(into := server.inbound, flight := l.flight[n..]), UpCipher(h), HeaderOf(ks, h))
  {
    HeaderBytes(ks, h);
    WaitingHolds(ks, h, l, n);
    var header, plain := HeaderOf(ks, h), Stream(l.sent);
    var body := Crypt(ks, UpCipher(h), plain);
    var k := l.Received() + n - HEADER_SIZE;
    assert l.out.output[..l.Received() + n] == header + body[..k];
    Recognises(h, l.out.output[..l.Received() + n], out, header, body[..k]);
    var i := Inbound(Obfuscated, Some(UpCipher(h)), [], EMPTY, []);
    assert plain[..0] == [] && Receiving(i, UpCipher(h), plain, 0);
    assert body[0..0 + k] == body[..k];
    ReceiveMore(ks, i, UpCipher(h), plain, 0, body[..k]);
    SliceOfTail(l.out.output, l.Received(), n);
  }

  lemma {:induction false} NothingRead()
    ensures Feed(EMPTY, []) == Result([], EMPTY)
  {
    assert EMPTY.buffer + [] == [];
  }

  lemma {:induction false} NothingReceived(i: Inbound, c: Cipher)
    requires i == NEW_INBOUND.(session := Obfuscated, read := Some(c))
    ensures Receiving(i, c, [], 0)
  {
    var nothing: seq<byte> := [];
    assert nothing[..0] == nothing;
    NothingRead();
  }

  lemma {:induction false} NothingSent(ks: Keystream, l: Lane, c: Cipher)
    requires l.out == Outbound(Some(c), []) && l.flight == []
    ensures Carries(ks, l, c, [], []) && l.Received() == 0
  {
    assert Crypt(ks, c, []) == [];
  }

  lemma {:induction false} SilentOpens(ks: Keystream, h: Handshake, l: Lane)
    requires h.Valid() && Silent(h, l)
    ensures Open(ks, l.(out := l.out.(write := Some(ReversedCipherOf(h.source)))), ReversedCipherOf(h.source), [])
  {
    var c := ReversedCipherOf(h.source);
    NothingReceived(l.into, c);
    NothingSent(ks, l.(out := l.out.(write := Some(c))), c);
  }

  // ---------------------------------------------------------------- every run

  ghost predicate Inv(ks: Keystream, h: Handshake, w: World)
    requires h.Valid()
  {
    || (Waiting(ks, h, w.up) && Silent(h, w.down))
    || (Open(ks, w.up, UpCipher(h), HeaderOf(ks, h)) && Open(ks, w.down, ReversedCipherOf(h.source), []))
  }

  lemma {:induction false} StartOk(ks: Keystream, h: Handshake)
    requires h.Valid()
    ensures Inv(ks, h, Start(ks, h))
  {
    HeaderBytes(ks, h);
    var header := HeaderOf(ks, h);
    assert header + Crypt(ks, UpCipher(h), []) == header && [] + header == header;
    assert header[0..] == header && header[..0] == [];
  }

  lemma {:induction false} ServerReadsOpen(ks: Keystream, h: Handshake, w: World, n: nat)
    requires h.Valid() && Enabled(w, ServerReads(n))
    requires Open(ks, w.up, UpCipher(h), HeaderOf(ks, h))
    ensures var w' := After(ks, w, ServerReads(n));
            w'.down == w.down && Open(ks, w'.up, UpCipher(h), HeaderOf(ks, h))
  {
    OpenReads(ks, w.up, UpCipher(h), HeaderOf(ks, h), n);
    assert [] + w.up.flight[..n] == w.up.flight[..n];
  }

  lemma {:induction false} ServerReadsOk(ks: Keystream, h: Handshake, w: World, n: nat)
    requires h.Valid() && Inv(ks, h, w) && Enabled(w, ServerReads(n))
    ensures Inv(ks, h, After(ks, w, ServerReads(n)))
  {
    if Waiting(ks, h, w.up) && Silent(h, w.down) {
      if w.up.Received() + n < HEADER_SIZE {
        StillWaiting(ks, h, w.up, w.down.out, n);
      } else {
        HandshakeDone(ks, h, w.up, w.down.out, n);
        SilentOpens(ks, h, w.down);
      }
    } else {
      ServerReadsOpen(ks, h, w, n);
    }
  }

  lemma {:induction false} StepOk(ks: Keystream, h: Handshake, w: World, s: Step)
    requires h.Valid() && Inv(ks, h, w) && Enabled(w, s)
    ensures Inv(ks, h, After(ks, w, s))
  {
    match s
    case ClientSends(p) =>
      if Waiting(ks, h, w.up) {
        WaitingSends(ks, h, w.up, p);
      } else {
        OpenSends(ks, w.up, UpCipher(h), HeaderOf(ks, h), p);
      }
    case ServerSends(p) => OpenSends(ks, w.down, ReversedCipherOf(h.source), [], p);
    case ServerReads(n) => ServerReadsOk(ks, h, w, n);
    case ClientReads(n) =>
      OpenReads(ks, w.down, ReversedCipherOf(h.source), [], n);
      assert [] + w.down.flight[..n] == w.down.flight[..n];
  }

  lemma {:induction false} RunKeeps(ks: Keystream, h: Handshake, steps: seq<Step>)
    requires h.Valid() && IsRun(ks, h, steps)
    ensures Inv(ks, h, RunOf(ks, h, steps))
    decreases |steps|
  {
    if steps == [] {
      StartOk(ks, h);
    } else {
      RunKeeps(ks, h, steps[..|steps| - 1]);
      StepOk(ks, h, RunOf(ks, h, steps[..|steps| - 1]), steps[|steps| - 1]);
    }
  }

  // ---------------------------------------------------------------- end to end

  /** `packets` are the payloads of exactly the frames that end within the first `k` bytes. */
  ghost predicate Complete(ps: seq<Payload>, k: nat, packets: seq<Payload>) {
    && packets <= ps && |Stream(packets)| <= k
    && (|packets| < |ps| ==> k < |Stream(ps[..|packets| + 1])|)
  }

  /** Less than the first frame has arrived. */
  lemma {:induction false} PromptFirst(ps: seq<Payload>, k: nat)
    requires AllFramable(ps) && ps != [] && k < |Frame(ps[0])|
    ensures k <= |Stream(ps)| && Complete(ps, k, Feed(EMPTY, Stream(ps)[..k]).packets)
  {
    var t := Stream(ps)[..k];
    assert t == Frame(ps[0])[..k];
    assert EMPTY.buffer + t == t;
    PartialFrame(ps[0], t);
    assert ps[..1] == [ps[0]] && Stream([ps[0]][1..]) == [];
    assert Stream(ps[..1]) == Frame(ps[0]) + [];
  }

  lemma {:induction false} CompleteMore(ps: seq<Payload>, k: nat, q: seq<Payload>)
    requires ps != [] && Complete(ps[1..], k, q)
    ensures Complete(ps, |Frame(ps[0])| + k, [ps[0]] + q)
  {
    assert ([ps[0]] + q)[1..] == q;
    assert [ps[0]] + ps[1..] == ps;
    if |q| < |ps[1..]| {
      assert ps[..|q| + 2][1..] == ps[1..][..|q| + 1];
    }
  }

  lemma {:induction false} FeedFrame(p: Payload, t: seq<byte>)
    requires Framable(p)
    ensures Feed(EMPTY, Frame(p) + t).packets == [p] + Feed(EMPTY, t).packets
  {
    assert EMPTY.buffer + t == t && EMPTY.buffer + (Frame(p) + t) == Frame(p) + t;
    FrameRead(p, t);
  }

  lemma {:induction false} PromptPrefix(ps: seq<Payload>, k: nat)
    requires AllFramable(ps) && k <= |Stream(ps)|
    ensures Complete(ps, k, Feed(EMPTY, Stream(ps)[..k]).packets)
    decreases |ps|
  {
    if ps == [] {
      assert EMPTY.buffer + Stream(ps)[..k] == [];
    } else if k < |Frame(ps[0])| {
      PromptFirst(ps, k);
    } else {
      var f, rest := Frame(ps[0]), Stream(ps[1..]);
      assert Stream(ps)[..k] == f + rest[..k - |f|];
      FeedFrame(ps[0], rest[..k - |f|]);
      PromptPrefix(ps[1..], k - |f|);
      CompleteMore(ps, k - |f|, Feed(EMPTY, rest[..k - |f|]).packets);
    }
  }

  /** What both ends of an open direction agree on. */
  ghost predicate InStep(l: Lane, skipped: nat) {
    && l.into.session == Obfuscated
    && l.into.read.Some? && l.out.write.Some?
    && l.into.read.value.Advanced(|l.flight|) == l.out.write.value
    && l.Received() >= skipped && Complete(l.sent, l.Received() - skipped, l.into.packets)
  }

  /** What was read and what is in flight make up what was written. */
  lemma {:induction false} PositionsMeet(ks: Keystream, l: Lane, c: Cipher, prefix: seq<byte>, plain: seq<byte>)
    requires InTouch(ks, l, c, prefix, plain)
    ensures l.into.read.Some? && l.out.write.Some? && l.into.read.value.Advanced(|l.flight|) == l.out.write.value
    ensures l.into.packets == Feed(EMPTY, plain[..l.Received() - |prefix|]).packets
    ensures l.flight == [] ==> l.Received() - |prefix| == |plain|
  {
  }

  lemma {:induction false} OpenInStep(ks: Keystream, l: Lane, c: Cipher, prefix: seq<byte>)
    requires Open(ks, l, c, prefix)
    ensures InStep(l, |prefix|)
    ensures l.flight == [] ==> l.into.packets == l.sent
  {
    PositionsMeet(ks, l, c, prefix, Stream(l.sent));
    PromptPrefix(l.sent, l.Received() - |prefix|);
    if l.flight == [] {
      AllComplete(l.sent, l.into.packets);
    }
  }

  /**
   In every run the server never takes the session for an abridged one; once the header has
   arrived, the key streams of both directions are aligned with the bytes in flight, and each
   end has emitted exactly the payloads whose last byte has arrived.
   */
  lemma {:induction false} EndToEnd(ks: Keystream, h: Handshake, steps: seq<Step>)
    requires h.Valid() && IsRun(ks, h, steps)
    ensures var w := RunOf(ks, h, steps);
            if w.up.Received() < HEADER_SIZE
            then w.up.into.session == Unknown && w.up.into.packets == [] && w.down.sent == [] &&
              w.down.into.packets == []
            else InStep(w.up, HEADER_SIZE) && InStep(w.down, 0)
  {
    RunKeeps(ks, h, steps);
    HeaderBytes(ks, h);
    var w := RunOf(ks, h, steps);
    if !Waiting(ks, h, w.up) {
      OpenInStep(ks, w.up, UpCipher(h), HeaderOf(ks, h));
      OpenInStep(ks, w.down, ReversedCipherOf(h.source), []);
    }
  }

  /** When nothing is in flight, everything sent was emitted at the other end. */
  lemma {:induction false} Delivered(ks: Keystream, h: Handshake, steps: seq<Step>)
    requires h.Valid() && IsRun(ks, h, steps)
    ensures var w := RunOf(ks, h, steps);
            && (w.up.flight == [] ==> w.up.into.packets == w.up.sent)
            && (w.down.flight == [] ==> w.down.into.packets == w.down.sent)
  {
    RunKeeps(ks, h, steps);
    HeaderBytes(ks, h);
    var w := RunOf(ks, h, steps);
    if !Waiting(ks, h, w.up) {
      OpenInStep(ks, w.up, UpCipher(h), HeaderOf(ks, h));
      OpenInStep(ks, w.down, ReversedCipherOf(h.source), []);
    }
  }

  lemma {:induction false} AllComplete(ps: seq<Payload>, packets: seq<Payload>)
    requires Complete(ps, |Stream(ps)|, packets)
    ensures packets == ps
  {
    if |packets| < |ps| {
      var n := |packets| + 1;
      assert ps[..n] + ps[n..] == ps;
      StreamAppend(ps[..n], ps[n..]);
    }
  }
}
