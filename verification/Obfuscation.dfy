/**
 The session of a TCP transport: the obfuscated handshake of the client, the way the server
 recognises it, and the packets that both send afterwards. AES in counter mode is exclusive
 or with a key stream that is indexed by key, initial vector and position.
 */
module Obfuscation {
  import opened Options
  import opened Bytes
  import opened Framing

  // ---------------------------------------------------------------- the cipher

  /** The byte that the cipher adds for a key and an initial vector at a position. */
  type Keystream = (seq<byte>, seq<byte>, nat) -> byte

  /** `AesCtrContext`: every byte crypted moves the position on. */
  datatype Cipher = Cipher(key: seq<byte>, iv: seq<byte>, pos: nat) {
    function Advanced(n: nat): Cipher {
      this.(pos := pos + n)
    }
  }

  function Crypt(ks: Keystream, c: Cipher, data: seq<byte>): seq<byte> {
    seq(|data|, i requires 0 <= i < |data| => Xor(data[i], ks(c.key, c.iv, c.pos + i)))
  }

  lemma {:induction false} CryptTwice(ks: Keystream, c: Cipher, data: seq<byte>)
    ensures Crypt(ks, c, Crypt(ks, c, data)) == data
  {
    forall i | 0 <= i < |data| ensures Crypt(ks, c, Crypt(ks, c, data))[i] == data[i] {
      XorTwice(data[i], ks(c.key, c.iv, c.pos + i));
    }
  }

  lemma {:induction false} CryptSplit(ks: Keystream, c: Cipher, a: seq<byte>, b: seq<byte>)
    ensures Crypt(ks, c, a + b) == Crypt(ks, c, a) + Crypt(ks, c.Advanced(|a|), b)
  {
    forall i | 0 <= i < |a + b|
      ensures Crypt(ks, c, a + b)[i] == (Crypt(ks, c, a) + Crypt(ks, c.Advanced(|a|), b))[i]
    {
      if i >= |a| {
        assert c.pos + i == c.Advanced(|a|).pos + (i - |a|);
      }
    }
  }

  // ---------------------------------------------------------------- one end of a connection

  datatype Session = Unknown | Abridged | Obfuscated

  const KEY_SIZE: nat := 32
  const SOURCE_SIZE: nat := 48
  const HEADER_SIZE: nat := 64

  /** The receiving half of an end; `input` is unread on the socket. */
  datatype Inbound = Inbound(
    session: Session, read: Option<Cipher>, input: seq<byte>, reader: Reader, packets: seq<Payload>)

  /** The sending half; `output` is everything that was written to the socket. */
  datatype Outbound = Outbound(write: Option<Cipher>, output: seq<byte>)

  datatype Endpoint = Endpoint(inbound: Inbound, outbound: Outbound)

  const NEW_INBOUND: Inbound := Inbound(Unknown, None, [], EMPTY, [])
  const NEW_OUTBOUND: Outbound := Outbound(None, [])

  function Reversed(s: seq<byte>): seq<byte> {
    if s == [] then [] else Reversed(s[1..]) + [s[0]]
  }

  lemma {:induction false} ReversedLength(s: seq<byte>)
    ensures |Reversed(s)| == |s|
  {
    if s != [] {
      ReversedLength(s[1..]);
    }
  }

  lemma {:induction false} ReversedAt(s: seq<byte>, k: nat)
    requires k < |s|
    ensures |Reversed(s)| == |s| && Reversed(s)[k] == s[|s| - 1 - k]
  {
    ReversedLength(s);
    if k < |s| - 1 {
      ReversedAt(s[1..], k);
    } else {
      ReversedLength(s[1..]);
    }
  }

  function CipherOf(source: seq<byte>): Cipher
    requires |source| == SOURCE_SIZE
  {
    Cipher(source[..KEY_SIZE], source[KEY_SIZE..], 0)
  }

  function ReversedCipherOf(source: seq<byte>): Cipher
    requires |source| == SOURCE_SIZE
  {
    ReversedLength(source);
    CipherOf(Reversed(source))
  }

  /** Key and vector of both directions, byte by byte of the source; the other direction counts from its end. */
  lemma {:induction false} BothCiphers(source: seq<byte>)
    requires |source| == SOURCE_SIZE
    ensures var c, r := CipherOf(source), ReversedCipherOf(source);
            && |c.key| == |r.key| == 32 && |c.iv| == |r.iv| == 16 && c.pos == r.pos == 0
            && (forall k :: 0 <= k < 32 ==> c.key[k] == source[k] && r.key[k] == source[47 - k])
            && (forall k :: 0 <= k < 16 ==> c.iv[k] == source[32 + k] && r.iv[k] == source[15 - k])
  {
    ReversedLength(source);
    forall k | 0 <= k < 48 ensures Reversed(source)[k] == source[47 - k] {
      ReversedAt(source, k);
    }
  }

  /** The bytes that a packet puts on the socket. */
  function Written(ks: Keystream, o: Outbound, p: Payload): seq<byte> {
    if o.write.Some? then Crypt(ks, o.write.value, Frame(p)) else Frame(p)
  }

  function Sent(ks: Keystream, o: Outbound, p: Payload): Outbound {
    Outbound(if o.write.Some? then Some(o.write.value.Advanced(|Frame(p)|)) else None, o.output + Written(ks, o, p))
  }

  /** The random parts of the handshake: two words, the key source and a trailing word. */
  datatype Handshake = Handshake(first: seq<byte>, next: seq<byte>, source: seq<byte>, trailing: seq<byte>) {
    /** What the rejection loops and the sizes guarantee: the first byte is not the abridged sign. */
    predicate Valid() {
      |first| == |next| == |trailing| == 4 && |source| == SOURCE_SIZE && first[0] != 0xef
    }

    function Plain(): seq<byte> {
      first + next + source + [0xef, 0xef, 0xef, 0xef] + trailing
    }
  }

  /** The 64 bytes on the wire: 56 in plain text, the last eight encrypted. */
  function HeaderOf(ks: Keystream, h: Handshake): seq<byte>
    requires h.Valid()
  {
    h.Plain()[..56] + Crypt(ks, CipherOf(h.source), h.Plain())[56..]
  }

  /** What is behind the encryption of the header: the sign of the abridged format, four times. */
  lemma {:induction false} HeaderDecrypted(ks: Keystream, h: Handshake)
    requires h.Valid()
    ensures var header := HeaderOf(ks, h);
            && |header| == HEADER_SIZE && header[..4] == h.first && header[4..8] == h.next && header[8..56] == h.source
            && Crypt(ks, CipherOf(h.source).Advanced(56), header[56..]) == [0xef, 0xef, 0xef, 0xef] + h.trailing
  {
    var c, plain := CipherOf(h.source), h.Plain();
    assert plain == plain[..56] + plain[56..];
    CryptSplit(ks, c, plain[..56], plain[56..]);
    CryptTwice(ks, c.Advanced(56), plain[56..]);
    assert Crypt(ks, c, plain)[56..] == Crypt(ks, c.Advanced(56), plain[56..]);
    assert plain[56..] == [0xef, 0xef, 0xef, 0xef] + h.trailing;
    assert HeaderOf(ks, h)[56..] == Crypt(ks, c, plain)[56..];
    assert HeaderOf(ks, h)[..56] == plain[..56] == h.first + h.next + h.source;
  }

  function ClientStarted(ks: Keystream, e: Endpoint, h: Handshake): Endpoint
    requires h.Valid()
  {
    Endpoint(
      e.inbound.(session := Obfuscated, read := Some(ReversedCipherOf(h.source))),
      Outbound(Some(CipherOf(h.source).Advanced(HEADER_SIZE)), e.outbound.output + HeaderOf(ks, h)))
  }

  /** `startAbridgedSession` of the client. */
  function AbridgedStarted(e: Endpoint): Endpoint {
    Endpoint(e.inbound.(session := Abridged), e.outbound.(output := e.outbound.output + [0xef]))
  }

  /** `readEvent` of the server: recognise the session from the first bytes. */
  function Recognised(e: Endpoint): Endpoint
    requires e.inbound.input != []
  {
    var i := e.inbound;
    if i.session != Unknown then e
    else if i.input[0] == 0xef then e.(inbound := i.(session := Abridged, input := i.input[1..]))
    else if |i.input| < HEADER_SIZE then e
    else
      var source := i.input[8..56];
      Endpoint(
        i.(session := Obfuscated,
           read := Some(CipherOf(source).Advanced(HEADER_SIZE)),
           input := i.input[HEADER_SIZE..]),
        e.outbound.(write := Some(ReversedCipherOf(source))))
  }

  /** The rest of `onReadyRead`: take all bytes, decrypt them and cut out packets. */
  function Consumed(ks: Keystream, i: Inbound): Inbound {
    if i.session == Unknown then i
    else
      var data := if i.read.Some? then Crypt(ks, i.read.value, i.input) else i.input;
      var result := Feed(i.reader, data);
      i.(input := [],
         read := if i.read.Some? then Some(i.read.value.Advanced(|i.input|)) else None,
         reader := result.reader,
         packets := i.packets + result.packets)
  }

  function Arrived(i: Inbound, chunk: seq<byte>): Inbound {
    i.(input := i.input + chunk)
  }

  function ServerRead(ks: Keystream, e: Endpoint, chunk: seq<byte>): Endpoint
    requires chunk != []
  {
    var e1 := Recognised(e.(inbound := Arrived(e.inbound, chunk)));
    e1.(inbound := Consumed(ks, e1.inbound))
  }

  // ---------------------------------------------------------------- the transports

  /** `BaseTcpTransport` with the client's and the server's session start. */
  class TcpTransport {
    const ks: Keystream
    const cutter: PacketReader
    var sessionType: Session
    var readAesContext: Option<Cipher>
    var writeAesContext: Option<Cipher>
    var input: seq<byte>
    var output: seq<byte>

    ghost function View(): Endpoint
      reads this, cutter
    {
      Endpoint(
        Inbound(sessionType, readAesContext, input, cutter.View(), cutter.packets),
        Outbound(writeAesContext, output))
    }

    constructor (ks: Keystream)
      ensures View() == Endpoint(NEW_INBOUND, NEW_OUTBOUND) && this.ks == ks && fresh(cutter)
    {
      this.ks := ks;
      cutter := new PacketReader();
      sessionType, readAesContext, writeAesContext, input, output := Unknown, None, None, [], [];
    }

    static method Reverse(source: seq<byte>) returns (reversed: seq<byte>)
      ensures reversed == Reversed(source)
    {
      reversed := [];
      var i := |source|;
      assert source[i..] == [];
      while i > 0
        invariant 0 <= i <= |source| && reversed == Reversed(source[i..])
      {
        i := i - 1;
        assert source[i..][1..] == source[i + 1..];
        reversed := reversed + [source[i]];
      }
      assert source[0..] == source;
    }

    method SetCryptoKeysSourceData(source: seq<byte>, directIsRead: bool)
      modifies this`readAesContext, this`writeAesContext
      ensures |source| != SOURCE_SIZE ==> View() == old(View())
      ensures |source| == SOURCE_SIZE ==>
                && readAesContext == Some(if directIsRead then CipherOf(source) else ReversedCipherOf(source))
                && writeAesContext == Some(if directIsRead then ReversedCipherOf(source) else CipherOf(source))
    {
      if |source| != SOURCE_SIZE {
        return;
      }
      var reversed := Reverse(source);
      ReversedLength(source);
      var direct := Cipher(source[..KEY_SIZE], source[KEY_SIZE..], 0);
      var other := Cipher(reversed[..KEY_SIZE], reversed[KEY_SIZE..], 0);
      if directIsRead {
        readAesContext, writeAesContext := Some(direct), Some(other);
      } else {
        readAesContext, writeAesContext := Some(other), Some(direct);
      }
    }

    /** `startObfuscatedSession` of the client, with its random words already accepted. */
    method StartObfuscatedSession(h: Handshake)
      requires h.Valid()
      modifies this
      ensures View() == ClientStarted(ks, old(View()), h)
    {
      SetCryptoKeysSourceData(h.source, false);
      var raw := h.first + h.next + h.source;
      output := output + raw;
      raw := raw + [0xef, 0xef, 0xef, 0xef];
      raw := raw + h.trailing;
      var encrypted := Crypt(ks, writeAesContext.value, raw);
      writeAesContext := Some(writeAesContext.value.Advanced(|raw|));
      assert raw == h.Plain() && raw[..56] == h.first + h.next + h.source;
      output := output + encrypted[56..64];
      sessionType := Obfuscated;
      assert output == old(output) + HeaderOf(ks, h);
    }

    method StartAbridgedSession()
      modifies this`output, this`sessionType
      ensures View() == AbridgedStarted(old(View()))
    {
      output := output + [0xef];
      sessionType := Abridged;
    }

    method SendPacket(p: Payload)
      modifies this`output, this`writeAesContext
      ensures View() == old(View()).(outbound := Sent(ks, old(View()).outbound, p))
    {
      var words := |p| / 4;
      var packet: seq<byte> := [];
      if words < 0x7f {
        packet := packet + [words];
      } else {
        packet := packet + [0x7f];
        packet := packet + Little(words, 3);
      }
      packet := packet + p;
      assert packet == Frame(p);
      if writeAesContext.Some? {
        var cipher := writeAesContext.value;
        writeAesContext := Some(cipher.Advanced(|packet|));
        packet := Crypt(ks, cipher, packet);
      }
      output := output + packet;
    }

    /** `readEvent` of the server. */
    method ReadEvent()
      requires input != []
      modifies this
      ensures View() == Recognised(old(View()))
    {
      if sessionType != Unknown {
        return;
      }
      var sessionSign := input[0];
      if sessionSign == 0xef {
        input := input[1..];
        sessionType := Abridged;
      } else if |input| >= HEADER_SIZE {
        var plainData := input[..56];
        var encryptionSourceData := plainData[8..][..48];
        assert encryptionSourceData == old(input)[8..56];
        SetCryptoKeysSourceData(encryptionSourceData, true);
        var content := input[..64];
        readAesContext := Some(readAesContext.value.Advanced(|content|));
        input := input[64..];
        sessionType := Obfuscated;
      }
    }

    /** `onReadyRead` once the session is recognised or not. */
    method Consume()
      requires !cutter.failed
      modifies this, cutter
      ensures View() == old(View()).(inbound := Consumed(ks, old(View()).inbound))
    {
      if sessionType == Unknown {
        return;
      }
      var allData := input;
      input := [];
      if readAesContext.Some? {
        var cipher := readAesContext.value;
        readAesContext := Some(cipher.Advanced(|allData|));
        allData := Crypt(ks, cipher, allData);
      }
      cutter.OnReadyRead(allData);
    }
  }

  // ---------------------------------------------------------------- the words of the handshake

  predicate FirstWordAccepted(word: nat) {
    word !in [0x44414548, 0x54534f50, 0x20544547, 0x20544547, 0xeeeeeeee] && word % 256 != 0xef
  }

  lemma {:induction false} WordIs(word: nat, bytes: seq<byte>)
    requires word < Pow256(4) && |bytes| == 4
    ensures Little(word, 4) == bytes <==> word == FromLittle(bytes)
  {
    LittleRoundTrip(word, 4);
    if word == FromLittle(bytes) {
      FromLittleInjective(Little(word, 4), bytes);
    }
  }

  lemma {:induction false} FromLittleInjective(a: seq<byte>, b: seq<byte>)
    requires |a| == |b| && FromLittle(a) == FromLittle(b)
    ensures a == b
  {
    if a != [] {
      FromLittleInjective(a[1..], b[1..]);
      assert a == [a[0]] + a[1..] && b == [b[0]] + b[1..];
    }
  }

  /** No word that looks like the start of another session: HEAD, POST, GET, the intermediate or abridged sign. */
  lemma {:induction false} FirstWordAcceptedIff(word: nat)
    requires word < Pow256(4)
    ensures FirstWordAccepted(word) <==>
            Little(word, 4) !in
              [[72, 69, 65, 68], [80, 79, 83, 84], [71, 69, 84, 32], [238, 238, 238, 238]] && Little(word, 4)[0] != 239
  {
    WordIs(word, [72, 69, 65, 68]);
    WordIs(word, [80, 79, 83, 84]);
    WordIs(word, [71, 69, 84, 32]);
    WordIs(word, [238, 238, 238, 238]);
    WordValues();
  }

  lemma {:induction false} WordValues()
    ensures FromLittle([72, 69, 65, 68]) == 0x44414548 && FromLittle([80, 79, 83, 84]) == 0x54534f50
    ensures FromLittle([71, 69, 84, 32]) == 0x20544547 && FromLittle([238, 238, 238, 238]) == 0xeeeeeeee
  {
  }

  /** The first loop of `startObfuscatedSession`, over the words of the random generator. */
  method PickFirstWord(random: nat -> nat, ghost stop: nat) returns (first: seq<byte>)
    requires FirstWordAccepted(random(stop))
    ensures |first| == 4 && first[0] != 0xef
    ensures exists i :: 0 <= i <= stop && FirstWordAccepted(random(i)) && first == Little(random(i), 4)
                        && forall j :: 0 <= j < i ==> !FirstWordAccepted(random(j))
  {
    var i := 0;
    while !FirstWordAccepted(random(i))
      invariant i <= stop && forall j :: 0 <= j < i ==> !FirstWordAccepted(random(j))
      decreases stop - i
    {
      i := i + 1;
    }
    first := Little(random(i), 4);
  }
}
