/**
 Every run of the key exchange between an honest client and an honest server over two FIFO
 channels: whoever has a key has the key and the salt of the other side, and the exchange
 fails exactly in the cases stated here.
 */
module KeyExchangeRuns {
  import opened Arithmetic
  import opened Bytes
  import opened BigNumbers
  import opened Factoring
  import opened RawStream
  import opened KeyExchange

  /** `last` are the random values of the step that was made last. */
  datatype World = World(client: Dh, server: Dh, toServer: seq<Message>, toClient: seq<Message>, last: Random)

  datatype Step = Start(nonce: Nonce, r: Random) | ServerReceives(r: Random) | ClientReceives(r: Random)

  function StartWorld(p: nat, q: nat, r: Random): World {
    World(FRESH, FreshServer(p, q), [], [], r)
  }

  predicate Enabled(w: World, s: Step) {
    match s
    case Start(_, _) => w.client.state == Idle
    case ServerReceives(r) => w.toServer != [] && r.time < TWO32
    case ClientReceives(r) => w.toClient != [] && DividerOk(w.toClient[0], r.divider)
  }

  function After(cfg: Config, w: World, s: Step): World
    requires Enabled(w, s)
  {
    match s
    case Start(nonce, r) =>
      var x := ClientStarted(w.client, nonce);
      w.(client := x.dh, toServer := w.toServer + x.out, last := r)
    case ServerReceives(r) =>
      var x := ServerReceived(cfg, w.server, w.toServer[0], r);
      w.(server := x.dh, toServer := w.toServer[1..], toClient := w.toClient + x.out, last := r)
    case ClientReceives(r) =>
      var x := ClientReceived(cfg, w.client, w.toClient[0], r);
      w.(client := x.dh, toClient := w.toClient[1..], toServer := w.toServer + x.out, last := r)
  }

  predicate IsRun(cfg: Config, w: World, steps: seq<Step>)
    decreases |steps|, 0
  {
    steps ==
      [] || (IsRun(cfg, w, steps[..|steps| - 1]) && Enabled(RunOf(cfg, w, steps[..|steps| - 1]), steps[|steps| - 1]))
  }

  function RunOf(cfg: Config, w: World, steps: seq<Step>): World
    requires IsRun(cfg, w, steps)
    decreases |steps|
  {
    if steps == [] then w else After(cfg, RunOf(cfg, w, steps[..|steps| - 1]), steps[|steps| - 1])
  }

  // ---------------------------------------------------------------- sizes

  function FieldSize(f: Field, v: seq<byte>): nat {
    |FieldBytes(f, v)|
  }

  lemma {:induction false} EncodedLength(fs: seq<Field>, vs: seq<seq<byte>>)
    requires |fs| == |vs| > 0
    ensures |Encoded(fs, vs)| == FieldSize(fs[0], vs[0]) + |Encoded(fs[1..], vs[1..])|
  {
  }

  lemma {:induction false} LengthOfTwo(fs: seq<Field>, vs: seq<seq<byte>>)
    requires |fs| == |vs| == 2
    ensures |Encoded(fs, vs)| == FieldSize(fs[0], vs[0]) + FieldSize(fs[1], vs[1])
  {
    EncodedLength(fs, vs);
    EncodedLength(fs[1..], vs[1..]);
    assert fs[1..][1..] == [] && vs[1..][1..] == [];
  }

  lemma {:induction false} LengthOfFive(fs: seq<Field>, vs: seq<seq<byte>>)
    requires |fs| == |vs| == 5
    ensures |Encoded(fs, vs)| == FieldSize(fs[0], vs[0]) + FieldSize(fs[1], vs[1]) + FieldSize(fs[2], vs[2]) +
                                 FieldSize(fs[3], vs[3]) + FieldSize(fs[4], vs[4])
  {
    EncodedLength(fs, vs);
    EncodedLength(fs[1..], vs[1..]);
    EncodedLength(fs[2..], vs[2..]);
    assert fs[1..][1..] == fs[2..] && vs[1..][1..] == vs[2..];
    assert fs[2..][1..] == fs[3..] && vs[2..][1..] == vs[3..];
    LengthOfTwo(fs[3..], vs[3..]);
  }

  lemma {:induction false} LengthOfSeven(fs: seq<Field>, vs: seq<seq<byte>>)
    requires |fs| == |vs| == 7
    ensures |Encoded(fs, vs)| == FieldSize(fs[0], vs[0]) + FieldSize(fs[1], vs[1]) + FieldSize(fs[2], vs[2]) +
                                 FieldSize(fs[3], vs[3]) + FieldSize(fs[4], vs[4]) + FieldSize(fs[5], vs[5]) +
                                 FieldSize(fs[6], vs[6])
  {
    EncodedLength(fs, vs);
    EncodedLength(fs[1..], vs[1..]);
    assert fs[1..][1..] == fs[2..] && vs[1..][1..] == vs[2..];
    LengthOfFive(fs[2..], vs[2..]);
  }

  function ArraySize(n: nat): nat {
    n + PackedSize(n) + Padding(n)
  }

  lemma {:induction false} SizeOfArray(v: seq<byte>)
    ensures FieldSize(Array, v) == ArraySize(|v|)
  {
    ArrayAligned(v);
  }

  lemma {:induction false} PqInnerSize(d: Dh)
    ensures |Encoded(PQ_LAYOUT, PqInnerValues(d))| == 96
  {
    var vs := PqInnerValues(d);
    LengthOfSeven(PQ_LAYOUT, vs);
    SizeOfArray(vs[1]);
    SizeOfArray(vs[2]);
    SizeOfArray(vs[3]);
  }

  lemma {:induction false} ServerInnerSize(d: Dh, time: nat)
    requires |d.dhPrime| == 256
    ensures |Encoded(SERVER_DH_LAYOUT, ServerInnerValues(d, time))| == 304 + ArraySize(|d.gA|)
  {
    var vs := ServerInnerValues(d, time);
    LengthOfSeven(SERVER_DH_LAYOUT, vs);
    SizeOfArray(vs[4]);
    SizeOfArray(vs[5]);
  }

  lemma {:induction false} ClientInnerSize(d: Dh)
    ensures |Encoded(CLIENT_DH_LAYOUT, ClientInnerValues(d))| == 44 + ArraySize(|ClientInnerValues(d)[4]|)
  {
    var vs := ClientInnerValues(d);
    LengthOfFive(CLIENT_DH_LAYOUT, vs);
    SizeOfArray(vs[4]);
  }

  // ---------------------------------------------------------------- the block of the client

  lemma {:induction false} PqInnerRead(d: Dh, rest: seq<byte>)
    ensures Values(PQ_LAYOUT, Encoded(PQ_LAYOUT, PqInnerValues(d)) + rest) == PqInnerValues(d)
  {
    RecordRoundTrip(PQ_LAYOUT, PqInnerValues(d), rest);
  }

  /** The server gets back the block that the client encrypted, leading zeros included. */
  lemma {:induction false} BlockOpened(cfg: Config, block: seq<byte>)
    requires cfg.Valid() && |block| == RSA_BLOCK
    ensures Opened(cfg.rsa, ModExp(block, cfg.rsa.modulus, cfg.rsa.exponent)) == block
  {
    FromBigBound(block);
    RsaRoundTrip(block, cfg.rsa);
    var plain := ModExp(ModExp(block, cfg.rsa.modulus, cfg.rsa.exponent), cfg.rsa.modulus, cfg.rsa.secret);
    if |plain| == RSA_BLOCK {
      assert Zeros(0) + plain == plain;
    }
  }

  lemma {:induction false} AfterHash(sha: seq<byte>, inner: seq<byte>, rest: seq<byte>, n: nat)
    requires |sha| == 20 && |inner| <= n
    ensures Mid(sha + inner + rest, 20, n) == inner + rest[..Min(n - |inner|, |rest|)]
    ensures Mid(sha + inner + rest, 0, 20) == sha
  {
  }

  lemma {:induction false} PqBlockForm(c: Crypto, d: Dh, noise: Block)
    ensures var inner := Encoded(PQ_LAYOUT, PqInnerValues(d));
            PqBlock(c, d, noise) == c.sha1(inner) + inner + noise[..139] && |PqBlock(c, d, noise)| == RSA_BLOCK
    ensures Mid(PqBlock(c, d, noise), 20, RSA_BLOCK) == Encoded(PQ_LAYOUT, PqInnerValues(d)) + noise[..139]
  {
    PqInnerSize(d);
    var inner := Encoded(PQ_LAYOUT, PqInnerValues(d));
    AfterHash(c.sha1(inner), inner, noise[..139], RSA_BLOCK);
  }

  /** The inner data of the client, as the server reads it. */
  lemma {:induction false} PqBlockRead(cfg: Config, d: Dh, noise: Block)
    requires cfg.Valid()
    ensures Values(PQ_LAYOUT, Mid(Opened(cfg.rsa, DhParamsRequest(cfg, d, noise).encrypted), 20, RSA_BLOCK)) ==
            PqInnerValues(d)
  {
    PqBlockForm(cfg.crypto, d, noise);
    BlockOpened(cfg, PqBlock(cfg.crypto, d, noise));
    PqInnerRead(d, noise[..139]);
  }

  // ---------------------------------------------------------------- sealed data

  lemma {:induction false} SealedOpened(cfg: Config, k: AesKey, inner: seq<byte>, noise: Block)
    requires cfg.Valid()
    ensures cfg.crypto.decrypt(k, cfg.crypto.encrypt(k, Sealed(cfg.crypto, inner, noise))) ==
            Sealed(cfg.crypto, inner, noise)
  {
    SealedSize(cfg.crypto, inner, noise);
  }

  lemma {:induction false} SealedSize(c: Crypto, inner: seq<byte>, noise: Block)
    ensures |Sealed(c, inner, noise)| % 16 == 0
  {
  }

  /** How much of the padding falls into a window of `n` bytes after the hash. */
  function PaddingSeen(size: nat, n: nat): nat {
    if size <= n then Min(n - size, PaddingTo16(20 + size)) else 0
  }

  lemma {:induction false} SealedWindow(c: Crypto, inner: seq<byte>, noise: Block, n: nat)
    requires |inner| <= n
    ensures Mid(Sealed(c, inner, noise), 20, n) == inner + noise[..PaddingSeen(|inner|, n)]
    ensures Mid(Sealed(c, inner, noise), 0, 20) == c.sha1(inner)
  {
    var padding := noise[..PaddingTo16(20 + |inner|)];
    AfterHash(c.sha1(inner), inner, padding, n);
    assert padding[..PaddingSeen(|inner|, n)] == noise[..PaddingSeen(|inner|, n)];
  }

  // ---------------------------------------------------------------- the answer of the server

  function ServerInner(d: Dh, time: nat): seq<byte> {
    Encoded(SERVER_DH_LAYOUT, ServerInnerValues(d, time))
  }

  /** The hash that the client computes over its fixed window is the hash that the server sent. */
  predicate HashFits(cfg: Config, server: Dh, time: nat, noise: Block) {
    var inner := ServerInner(server, time);
    cfg.crypto.sha1(inner + noise[..PaddingSeen(|inner|, 564)]) == cfg.crypto.sha1(inner)
  }

  lemma {:induction false} ArraySizeBound(n: nat)
    requires n <= 256
    ensures ArraySize(n) <= 260 && ArraySize(n) % 4 == 0 && (ArraySize(n) == 260 <==> n >= 254)
  {
  }

  /** The public value has at least 254 bytes, or the answer fills whole AES blocks. */
  predicate SizeFits(server: Dh) {
    |server.gA| >= 254 || (324 + ArraySize(|server.gA|)) % 16 == 0
  }

  /** The part of the random padding that falls into the window of the client. */
  function PaddingInWindow(server: Dh, time: nat, noise: Block): seq<byte> {
    noise[..PaddingSeen(|ServerInner(server, time)|, 564)]
  }

  /** The window holds no padding if and only if the size of the answer fits. */
  lemma {:induction false} NoPaddingSeenIff(server: Dh, time: nat, noise: Block)
    requires |server.dhPrime| == 256 && |server.gA| <= 256
    ensures PaddingInWindow(server, time, noise) == [] <==> SizeFits(server)
  {
    ServerInnerSize(server, time);
    ArraySizeBound(|server.gA|);
    var n := PaddingSeen(|ServerInner(server, time)|, 564);
    assert |noise[..n]| == n;
  }

  /**
   Whatever SHA-1 is: an honest answer passes the check of the client if and only if its size
   fits or the padding in the window happens to make a collision.
   */
  lemma {:induction false} HashFitsIff(cfg: Config, server: Dh, time: nat, noise: Block)
    requires |server.dhPrime| == 256 && |server.gA| <= 256
    ensures var inner, x := ServerInner(server, time), PaddingInWindow(server, time, noise);
            && (x == [] <==> SizeFits(server))
            && (HashFits(cfg, server, time, noise) <==>
                  SizeFits(server) || (x != [] && cfg.crypto.sha1(inner + x) == cfg.crypto.sha1(inner)))
  {
    NoPaddingSeenIff(server, time, noise);
    var inner := ServerInner(server, time);
    if SizeFits(server) {
      assert inner + PaddingInWindow(server, time, noise) == inner;
    }
  }

  /** The exponent one, as the server may draw it: 255 zeros and a one. */
  function SecretOne(): Block {
    Zeros(255) + [1]
  }

  lemma {:induction false} FirstPower(data: seq<byte>, modulus: seq<byte>, exponent: seq<byte>)
    requires FromBig(exponent) == 1 && FromBig(data) < FromBig(modulus)
    ensures ModExp(data, modulus, exponent) == Minimal(FromBig(data))
  {
    var b := FromBig(data);
    assert Pow(b, 1) == b * Pow(b, 0) == b;
    Div(FromBig(modulus), 0, b);
  }

  lemma {:induction false} SecretOneIsOne()
    ensures FromBig(SecretOne()) == 1
  {
    FromBigOfZeros(255);
    FromBigSnoc(Zeros(255), 1);
  }

  lemma {:induction false} GeneratorBytes()
    ensures FromBig(Big(GENERATOR, 4)) == GENERATOR && Minimal(GENERATOR) == [GENERATOR]
  {
    SmallNumbers();
    BigRoundTrip(GENERATOR, 4);
    assert Minimal(GENERATOR) == Minimal(0) + [GENERATOR];
  }

  lemma {:induction false} OneByteDoesNotFit(s: Dh)
    requires |s.gA| == 1
    ensures !SizeFits(s)
  {
  }

  /** With this secret the public value of the server is the generator, one byte long. */
  lemma {:induction false} OneByteValue(cfg: Config, s: Dh)
    requires cfg.Valid() && Chosen(cfg, s) && s.secret == SecretOne()
    ensures s.gA == [GENERATOR]
  {
    SecretOneIsOne();
    GeneratorBytes();
    FromBigAtLeast(cfg.dhPrime);
    FirstPower(Big(GENERATOR, 4), cfg.dhPrime, s.secret);
  }

  predicate Agreed(c: Dh, s: Dh) {
    c.clientNonce == s.clientNonce && c.serverNonce == s.serverNonce
  }

  lemma {:induction false} ServerInnerRead(d: Dh, time: nat, rest: seq<byte>)
    requires |d.dhPrime| == 256 && |d.gA| <= 256
    ensures Values(SERVER_DH_LAYOUT, ServerInner(d, time) + rest) == ServerInnerValues(d, time)
  {
    RecordRoundTrip(SERVER_DH_LAYOUT, ServerInnerValues(d, time), rest);
  }

  lemma {:induction false} SmallNumbers()
    ensures Pow256(4) == TWO32 && Pow256(8) == TWO64
    ensures FromLittle(Little(PQ_INNER, 4)) == PQ_INNER
    ensures FromLittle(Little(SERVER_DH_INNER, 4)) == SERVER_DH_INNER
    ensures FromLittle(Little(CLIENT_DH_INNER, 4)) == CLIENT_DH_INNER
    ensures FromLittle(Little(GENERATOR, 4)) == GENERATOR
  {
    LittleRoundTrip(PQ_INNER, 4);
    LittleRoundTrip(SERVER_DH_INNER, 4);
    LittleRoundTrip(CLIENT_DH_INNER, 4);
    LittleRoundTrip(GENERATOR, 4);
  }

  /** The server has chosen the parameters and knows the temporary key. */
  ghost predicate Chosen(cfg: Config, s: Dh) {
    && s.g == GENERATOR && s.dhPrime == cfg.dhPrime && s.gA == ModExp(Big(GENERATOR, 4), cfg.dhPrime, s.secret)
    && s.aes == TmpAesKey(cfg.crypto, s.serverNonce, s.newNonce)
  }

  /** The decrypted answer: what the client finds in its window and in front of it. */
  lemma {:induction false} AnswerOpened(cfg: Config, s: Dh, time: nat, noise: Block)
    requires cfg.Valid() && Chosen(cfg, s)
    ensures var inner := ServerInner(s, time);
            var plain := cfg.crypto.decrypt(s.aes, DhParamsAnswer(cfg, s, time, noise).encrypted);
            && AnswerWindow(plain) == inner + noise[..PaddingSeen(|inner|, 564)]
            && Mid(plain, 0, 20) == cfg.crypto.sha1(inner)
            && Values(SERVER_DH_LAYOUT, AnswerWindow(plain)) == ServerInnerValues(s, time)
  {
    ModExpSize(Big(GENERATOR, 4), cfg.dhPrime, s.secret);
    ServerInnerSize(s, time);
    ArraySizeBound(|s.gA|);
    var inner := ServerInner(s, time);
    SealedOpened(cfg, s.aes, inner, noise);
    SealedWindow(cfg.crypto, inner, noise, 564);
    ServerInnerRead(s, time, noise[..PaddingSeen(|inner|, 564)]);
  }

  lemma {:induction false} ParamsCheckedExactly(cfg: Config, c: Dh, s: Dh, time: nat, noise: Block)
    requires cfg.Valid() && Chosen(cfg, s) && Agreed(c, s) && c.newNonce == s.newNonce
    ensures ParamsChecked(cfg, c, DhParamsAnswer(cfg, s, time, noise).encrypted) ==
            if HashFits(cfg, s, time, noise) then (true, c.(aes := s.aes, g := s.g, dhPrime := s.dhPrime, gA := s.gA))
            else (false, c.(aes := s.aes))
  {
    AnswerOpened(cfg, s, time, noise);
    SmallNumbers();
  }

  // ---------------------------------------------------------------- the answer of the client

  lemma {:induction false} ClientAnswerRead(cfg: Config, c: Dh, noise: Block)
    requires cfg.Valid() && |c.dhPrime| == 256
    ensures Values(CLIENT_DH_LAYOUT,
            Mid(cfg.crypto.decrypt(c.aes, DhGenerationRequest(cfg, c, noise).encrypted), 20, 304)) ==
            ClientInnerValues(c)
  {
    var vs := ClientInnerValues(c);
    var inner := Encoded(CLIENT_DH_LAYOUT, vs);
    ModExpSize(Big(c.g, 4), c.dhPrime, c.secret);
    ClientInnerSize(c);
    ArraySizeBound(|vs[4]|);
    SealedOpened(cfg, c.aes, inner, noise);
    SealedWindow(cfg.crypto, inner, noise, 304);
    RecordRoundTrip(CLIENT_DH_LAYOUT, vs, noise[..PaddingSeen(|inner|, 304)]);
  }

  // ---------------------------------------------------------------- the stages of the exchange

  ghost predicate Primes(p: nat, q: nat) {
    IsPrime(p) && IsPrime(q) && p < q < TWO32
  }

  function ClientWaiting(nonce: Nonce): Dh {
    FRESH.(clientNonce := nonce, state := PqRequested)
  }

  function ServerReplied(p: nat, q: nat, clientNonce: Nonce, serverNonce: Nonce): Dh {
    FreshServer(p, q).(clientNonce := clientNonce, serverNonce := serverNonce, state := PqReplied)
  }

  ghost predicate Stage0(p: nat, q: nat, w: World) {
    w.client == FRESH && w.server == FreshServer(p, q) && w.toServer == [] && w.toClient == []
  }

  ghost predicate Stage1(p: nat, q: nat, w: World) {
    && w.client == ClientWaiting(w.client.clientNonce) && w.server == FreshServer(p, q)
    && w.toServer == [ReqPq(w.client.clientNonce)] && w.toClient == []
  }

  ghost predicate Stage2(cfg: Config, p: nat, q: nat, w: World) {
    && w.client == ClientWaiting(w.client.clientNonce)
    && w.server == ServerReplied(p, q, w.client.clientNonce, w.server.serverNonce)
    && w.toServer == [] && w.toClient == [PqAnswer(cfg, w.server)]
  }

  /** The client has split `pq` by the divider it found. */
  ghost predicate Stage3(cfg: Config, p: nat, q: nat, w: World) {
    && w.client.state == DhRequested && w.client.authKey == []
    && Agreed(w.client, w.server) && w.client.pq == p * q
    && Divides(w.last.divider, p * q) && w.last.divider != 1
    && (w.client.p, w.client.q) == Factors(p * q, w.last.divider)
    && w.server == ServerReplied(p, q, w.server.clientNonce, w.server.serverNonce)
    && w.toServer == [DhParamsRequest(cfg, w.client, w.last.noise)] && w.toClient == []
  }

  /** Both know the new nonce, the server has chosen its parameters. */
  ghost predicate Parameters(cfg: Config, w: World) {
    Agreed(w.client, w.server) && w.client.newNonce == w.server.newNonce && Chosen(cfg, w.server)
  }

  ghost predicate Stage4(cfg: Config, w: World) {
    && w.client.state == DhRequested && w.client.authKey == []
    && w.server.state == DhRepliedOk && Parameters(cfg, w)
    && w.toServer == [] && w.toClient == [DhParamsAnswer(cfg, w.server, w.last.time, w.last.noise)]
  }

  /** The client has the parameters of the server. */
  ghost predicate Shared(cfg: Config, w: World) {
    && Parameters(cfg, w)
    && w.client.aes == w.server.aes && w.client.g == w.server.g
    && w.client.dhPrime == w.server.dhPrime && w.client.gA == w.server.gA
  }

  ghost predicate Stage5(cfg: Config, w: World) {
    && w.client.state == DhGenerationResultRequested && w.client.authKey == []
    && w.server.state == DhRepliedOk && Shared(cfg, w)
    && w.toServer == [DhGenerationRequest(cfg, w.client, w.last.noise)] && w.toClient == []
  }

  /** The server has the key that the client is going to compute. */
  ghost predicate ServerKeyed(cfg: Config, w: World) {
    && w.server.state == HasKey && Shared(cfg, w)
    && w.server.authKey == ModExp(w.client.gA, w.client.dhPrime, w.client.secret)
    && w.server.salt == Salt(w.client.serverNonce, w.client.newNonce)
  }

  ghost predicate Stage6(cfg: Config, w: World) {
    && w.client.state == DhGenerationResultRequested && w.client.authKey == [] && ServerKeyed(cfg, w)
    && w.toServer == []
    && w.toClient ==
         [DhGenOk(w.server.clientNonce, w.server.serverNonce,
           AnswerHash(cfg.crypto, 1, w.server.newNonce, w.server.authKey))]
  }

  ghost predicate Stage7(cfg: Config, w: World) {
    && w.client.state == HasKey && ServerKeyed(cfg, w) && w.toServer == [] && w.toClient == []
    && w.client.authKey == w.server.authKey && w.client.salt == w.server.salt
  }

  ghost predicate Broken(w: World) {
    && w.toServer == [] && w.toClient == []
    && ((w.client.state == Failed && w.server.state in {PqReplied, DhRepliedOk}) ||
        (w.client.state == DhRequested && w.server.state == Failed))
  }

  ghost predicate Inv(cfg: Config, p: nat, q: nat, w: World) {
    || Stage0(p, q, w) || Stage1(p, q, w) || Stage2(cfg, p, q, w) || Stage3(cfg, p, q, w) || Stage4(cfg, w)
    || Stage5(cfg, w) || Stage6(cfg, w) || Stage7(cfg, w) || Broken(w)
  }

  // ---------------------------------------------------------------- one step of each stage

  lemma {:induction false} FirstStep(cfg: Config, p: nat, q: nat, w: World, r: Random)
    requires Stage1(p, q, w) && Enabled(w, ServerReceives(r))
    ensures Stage2(cfg, p, q, After(cfg, w, ServerReceives(r)))
  {
  }

  lemma {:induction false} ProductFits(p: nat, q: nat)
    requires 2 <= p < TWO32 && 2 <= q < TWO32
    ensures 2 <= p * q < TWO64
    ensures FromBig(Big(p * q, 8)) == p * q
  {
    MulMonotone(2, p, q);
    MulMonotone(p, TWO32, q);
    MulMonotone(q, TWO32 - 1, TWO32);
    SmallNumbers();
    BigRoundTrip(p * q, 8);
  }

  /** The client accepts the number if and only if it found a divider other than one. */
  lemma {:induction false} ClientSplits(cfg: Config, p: nat, q: nat, w: World, r: Random)
    requires Primes(p, q) && Stage2(cfg, p, q, w) && Enabled(w, ClientReceives(r))
    ensures var w' := After(cfg, w, ClientReceives(r));
            if r.divider != 1 then Stage3(cfg, p, q, w') else Broken(w') && w'.client.state == Failed
  {
    ProductFits(p, q);
  }

  lemma {:induction false} BigReadBack(x: nat)
    requires x < TWO32
    ensures FromBig(Mid(Big(x, 4), 0, 4)) == x && FromBig(Big(x, 4)) == x
  {
    SmallNumbers();
    BigRoundTrip(x, 4);
    assert Mid(Big(x, 4), 0, 4) == Big(x, 4);
  }

  lemma {:induction false} FactorsBelow(pq: nat, divider: nat)
    requires divider > 0
    ensures Factors(pq, divider).0 < TWO32 && Factors(pq, divider).1 < TWO32
  {
  }

  /** The inner data of the client is accepted and gives the server the new nonce. */
  lemma {:induction false} InnerTaken(c: Dh, s: Dh, p: nat, q: nat)
    requires Agreed(c, s) && c.pq == p * q && c.p == p == s.p && c.q == q == s.q && s.pq == p * q
    requires 2 <= p < TWO32 && 2 <= q < TWO32
    ensures PqInnerTaken(s, PqInnerValues(c)) == s.(newNonce := c.newNonce, state := DhRepliedOk)
  {
    SmallNumbers();
    ProductFits(p, q);
    BigReadBack(p);
    BigReadBack(q);
  }

  /** The only packet in flight reaches the server. */
  lemma {:induction false} ServerDelivery(cfg: Config, w: World, m: Message, r: Random, x: Reaction)
    requires w.toServer == [m] && w.toClient == [] && Enabled(w, ServerReceives(r)) &&
             ServerReceived(cfg, w.server, m, r) == x
    ensures After(cfg, w, ServerReceives(r)) == World(w.client, x.dh, [], x.out, r)
  {
  }

  lemma {:induction false} ParamsReaction(cfg: Config, p: nat, q: nat, c: Dh, s: Dh, noise: Block, r: Random)
    requires cfg.Valid() && Agreed(c, s) && c.pq == p * q && c.p == p == s.p && c.q == q == s.q && s.pq == p * q
    requires 2 <= p < TWO32 && 2 <= q < TWO32
    ensures var d := DhParamsChosen(cfg, s.(newNonce := c.newNonce, state := DhRepliedOk), r.secret);
            ServerReceived(cfg, s, DhParamsRequest(cfg, c, noise), r) ==
              Reaction(d, [DhParamsAnswer(cfg, d, r.time, r.noise)])
  {
    BigReadBack(p);
    BigReadBack(q);
    PqBlockRead(cfg, c, noise);
    InnerTaken(c, s, p, q);
  }

  lemma {:induction false} ServerTakes(cfg: Config, p: nat, q: nat, w: World, r: Random)
    requires cfg.Valid() && Primes(p, q) && Stage3(cfg, p, q, w) && Enabled(w, ServerReceives(r))
    requires w.last.divider != p * q
    ensures Stage4(cfg, After(cfg, w, ServerReceives(r)))
  {
    FactorsFoundIff(p, q, w.last.divider);
    ParamsReaction(cfg, p, q, w.client, w.server, w.last.noise, r);
    var d := DhParamsChosen(cfg, w.server.(newNonce := w.client.newNonce, state := DhRepliedOk), r.secret);
    var x := Reaction(d, [DhParamsAnswer(cfg, d, r.time, r.noise)]);
    ServerDelivery(cfg, w, DhParamsRequest(cfg, w.client, w.last.noise), r, x);
    ParametersReady(cfg, w.client, w.server, r);
  }

  lemma {:induction false} ParametersReady(cfg: Config, c: Dh, s: Dh, r: Random)
    requires Agreed(c, s) && c.state == DhRequested && c.authKey == []
    ensures var d := DhParamsChosen(cfg, s.(newNonce := c.newNonce, state := DhRepliedOk), r.secret);
            Stage4(cfg, World(c, d, [], [DhParamsAnswer(cfg, d, r.time, r.noise)], r))
  {
  }

  lemma {:induction false} ServerRefuses(cfg: Config, p: nat, q: nat, w: World, r: Random)
    requires Primes(p, q) && Stage3(cfg, p, q, w) && Enabled(w, ServerReceives(r))
    requires w.last.divider == p * q
    ensures Broken(After(cfg, w, ServerReceives(r))) && After(cfg, w, ServerReceives(r)).server.state == Failed
    ensures After(cfg, w, ServerReceives(r)) == World(w.client, w.server.(state := Failed), [], [], r)
  {
    FactorsFoundIff(p, q, w.last.divider);
    FactorsBelow(p * q, w.last.divider);
    BigReadBack(w.client.p);
    BigReadBack(w.client.q);
  }

  /** The only packet in flight reaches the client. */
  lemma {:induction false} ClientDelivery(cfg: Config, w: World, m: Message, r: Random, x: Reaction)
    requires w.toClient == [m] && w.toServer == [] && Enabled(w, ClientReceives(r)) &&
             ClientReceived(cfg, w.client, m, r) == x
    ensures After(cfg, w, ClientReceives(r)) == World(x.dh, w.server, x.out, [], r)
  {
  }

  lemma {:induction false} AnswerReaction(cfg: Config, c: Dh, s: Dh, time: nat, noise: Block, r: Random)
    requires cfg.Valid() && Chosen(cfg, s) && Agreed(c, s) && c.newNonce == s.newNonce
    requires c.state == DhRequested && r.divider > 0
    ensures ClientReceived(cfg, c, DhParamsAnswer(cfg, s, time, noise), r) ==
            if HashFits(cfg, s, time, noise) then
              var d := c.(aes := s.aes, g := s.g, dhPrime := s.dhPrime, gA := s.gA, secret := r.secret,
                          state := DhGenerationResultRequested);
              Reaction(d, [DhGenerationRequest(cfg, d, r.noise)])
            else Reaction(c.(aes := s.aes, state := Failed), [])
  {
    ParamsCheckedExactly(cfg, c, s, time, noise);
  }

  /** The client accepts the parameters if and only if the hash of its window fits. */
  lemma {:induction false} ClientTakes(cfg: Config, w: World, r: Random)
    requires cfg.Valid() && Stage4(cfg, w) && Enabled(w, ClientReceives(r))
    ensures var w' := After(cfg, w, ClientReceives(r));
            if HashFits(cfg, w.server, w.last.time, w.last.noise) then Stage5(cfg, w')
            else Broken(w') && w'.client.state == Failed
  {
    var m := DhParamsAnswer(cfg, w.server, w.last.time, w.last.noise);
    AnswerReaction(cfg, w.client, w.server, w.last.time, w.last.noise, r);
    ClientDelivery(cfg, w, m, r, ClientReceived(cfg, w.client, m, r));
  }

  /** The server's state and answer once it has the key. */
  function KeySet(cfg: Config, s: Dh, retryId: nat, authKey: seq<byte>): Reaction {
    Reaction(
      s.(retryId := retryId, authKey := authKey, salt := Salt(s.serverNonce, s.newNonce), state := HasKey),
      [DhGenOk(s.clientNonce, s.serverNonce, AnswerHash(cfg.crypto, 1, s.newNonce, authKey))])
  }

  lemma {:induction false} InnerReaction(cfg: Config, c: Dh, s: Dh)
    requires Agreed(c, s)
    ensures ClientInnerTaken(cfg, s, ClientInnerValues(c)) ==
            KeySet(cfg, s, FromLittle(Little(c.retryId, 8)),
              ModExp(ModExp(Big(c.g, 4), c.dhPrime, c.secret), s.dhPrime, s.secret))
  {
    SmallNumbers();
  }

  lemma {:induction false} SetReaction(cfg: Config, c: Dh, s: Dh, noise: Block, r: Random)
    requires cfg.Valid() && Agreed(c, s) && c.aes == s.aes && |c.dhPrime| == 256
    ensures ServerReceived(cfg, s, DhGenerationRequest(cfg, c, noise), r) ==
            ClientInnerTaken(cfg, s, ClientInnerValues(c))
  {
    ClientAnswerRead(cfg, c, noise);
  }

  lemma {:induction false} ServerFinishes(cfg: Config, w: World, r: Random)
    requires cfg.Valid() && Stage5(cfg, w) && Enabled(w, ServerReceives(r))
    ensures Stage6(cfg, After(cfg, w, ServerReceives(r)))
  {
    var c, s := w.client, w.server;
    ModExpCommutes(Big(GENERATOR, 4), cfg.dhPrime, s.secret, c.secret);
    SetReaction(cfg, c, s, w.last.noise, r);
    InnerReaction(cfg, c, s);
    var x := KeySet(cfg, s, FromLittle(Little(c.retryId, 8)), ModExp(c.gA, c.dhPrime, c.secret));
    ServerDelivery(cfg, w, DhGenerationRequest(cfg, c, w.last.noise), r, x);
  }

  lemma {:induction false} ClientFinishes(cfg: Config, w: World, r: Random)
    requires Stage6(cfg, w) && Enabled(w, ClientReceives(r))
    ensures Stage7(cfg, After(cfg, w, ClientReceives(r)))
  {
  }

  // ---------------------------------------------------------------- what was drawn

  /** The random values of a run that must reach the keys. */
  datatype Draws = Draws(
    clientNonce: Nonce, serverNonce: Nonce, newNonce: LongNonce, serverSecret: Block, clientSecret: Block)

  const NO_DRAWS: Draws := Draws(NO_NONCE, NO_NONCE, NO_LONG_NONCE, Zeros(256), Zeros(256))

  /** What is drawn in a step: the state of the client says how far the exchange is. */
  function DrawnBy(x: Draws, reached: State, s: Step): Draws {
    match s
    case Start(nonce, _) => x.(clientNonce := nonce)
    case ServerReceives(r) =>
      if reached == PqRequested then x.(serverNonce := r.nonce)
      else if reached == DhRequested then x.(serverSecret := r.secret)
      else x
    case ClientReceives(r) =>
      if reached == PqRequested then x.(newNonce := r.newNonce)
      else if reached == DhRequested then x.(clientSecret := r.secret)
      else x
  }

  function Drawn(cfg: Config, w: World, steps: seq<Step>): Draws
    requires IsRun(cfg, w, steps)
    decreases |steps|
  {
    if steps == [] then NO_DRAWS
    else
      var init := steps[..|steps| - 1];
      DrawnBy(Drawn(cfg, w, init), RunOf(cfg, w, init).client.state, steps[|steps| - 1])
  }

  /** The key that belongs to the drawn secrets, the server's first. */
  function KeyOf(cfg: Config, x: Draws): seq<byte> {
    ModExp(ModExp(Big(GENERATOR, 4), cfg.dhPrime, x.serverSecret), cfg.dhPrime, x.clientSecret)
  }

  ghost predicate ClientUses(cfg: Config, c: Dh, x: Draws) {
    && (c.state != Idle ==> c.clientNonce == x.clientNonce)
    && (c.state in {DhRequested, DhGenerationResultRequested, HasKey} ==>
          c.serverNonce == x.serverNonce && c.newNonce == x.newNonce)
    && (c.state in {DhGenerationResultRequested, HasKey} ==>
          c.secret == x.clientSecret && c.aes == TmpAesKey(cfg.crypto, x.serverNonce, x.newNonce))
    && (c.state == HasKey ==> c.authKey == KeyOf(cfg, x) && c.salt == Salt(x.serverNonce, x.newNonce))
  }

  ghost predicate ServerUses(cfg: Config, s: Dh, x: Draws) {
    && (s.state != Idle ==> s.clientNonce == x.clientNonce && s.serverNonce == x.serverNonce)
    && (s.state in {DhRepliedOk, HasKey} ==>
          && s.newNonce == x.newNonce && s.secret == x.serverSecret
          && s.aes == TmpAesKey(cfg.crypto, x.serverNonce, x.newNonce))
    && (s.state == HasKey ==> s.authKey == KeyOf(cfg, x) && s.salt == Salt(x.serverNonce, x.newNonce))
  }

  ghost predicate BothUse(cfg: Config, w: World, x: Draws) {
    ClientUses(cfg, w.client, x) && ServerUses(cfg, w.server, x)
  }

  lemma {:induction false} NonceReplied(cfg: Config, p: nat, q: nat, w: World, r: Random, x: Draws)
    requires Stage1(p, q, w) && Enabled(w, ServerReceives(r)) && BothUse(cfg, w, x)
    ensures BothUse(cfg, After(cfg, w, ServerReceives(r)), x.(serverNonce := r.nonce))
  {
  }

  lemma {:induction false} NewNonceDrawn(cfg: Config, p: nat, q: nat, w: World, r: Random, x: Draws)
    requires Primes(p, q) && Stage2(cfg, p, q, w) && Enabled(w, ClientReceives(r)) && BothUse(cfg, w, x)
    ensures BothUse(cfg, After(cfg, w, ClientReceives(r)), x.(newNonce := r.newNonce))
  {
    ProductFits(p, q);
  }

  lemma {:induction false} ServerSecretDrawn(cfg: Config, p: nat, q: nat, w: World, r: Random, x: Draws)
    requires cfg.Valid() && Primes(p, q) && Stage3(cfg, p, q, w) && Enabled(w, ServerReceives(r)) && BothUse(cfg, w, x)
    ensures BothUse(cfg, After(cfg, w, ServerReceives(r)), x.(serverSecret := r.secret))
  {
    if w.last.divider == p * q {
      ServerRefuses(cfg, p, q, w, r);
    } else {
      FactorsFoundIff(p, q, w.last.divider);
      ParamsReaction(cfg, p, q, w.client, w.server, w.last.noise, r);
    }
  }

  lemma {:induction false} ClientSecretDrawn(cfg: Config, w: World, r: Random, x: Draws)
    requires cfg.Valid() && Stage4(cfg, w) && Enabled(w, ClientReceives(r)) && BothUse(cfg, w, x)
    ensures BothUse(cfg, After(cfg, w, ClientReceives(r)), x.(clientSecret := r.secret))
  {
    AnswerReaction(cfg, w.client, w.server, w.last.time, w.last.noise, r);
  }

  lemma {:induction false} ServerKeyDrawn(cfg: Config, w: World, r: Random, x: Draws)
    requires cfg.Valid() && Stage5(cfg, w) && Enabled(w, ServerReceives(r)) && BothUse(cfg, w, x)
    ensures BothUse(cfg, After(cfg, w, ServerReceives(r)), x)
  {
    var c, s := w.client, w.server;
    ModExpCommutes(Big(GENERATOR, 4), cfg.dhPrime, s.secret, c.secret);
    SetReaction(cfg, c, s, w.last.noise, r);
    InnerReaction(cfg, c, s);
  }

  lemma {:induction false} ClientKeyDrawn(cfg: Config, w: World, r: Random, x: Draws)
    requires Stage6(cfg, w) && Enabled(w, ClientReceives(r)) && BothUse(cfg, w, x)
    ensures BothUse(cfg, After(cfg, w, ClientReceives(r)), x)
  {
  }

  lemma {:induction false} StepUses(cfg: Config, p: nat, q: nat, w: World, s: Step, x: Draws)
    requires cfg.Valid() && Primes(p, q) && Inv(cfg, p, q, w) && Enabled(w, s) && BothUse(cfg, w, x)
    ensures BothUse(cfg, After(cfg, w, s), DrawnBy(x, w.client.state, s))
  {
    match s
    case Start(nonce, r) =>
      assert Stage0(p, q, w);
    case ServerReceives(r) =>
      if Stage1(p, q, w) {
        NonceReplied(cfg, p, q, w, r, x);
      } else if Stage3(cfg, p, q, w) {
        ServerSecretDrawn(cfg, p, q, w, r, x);
      } else {
        ServerKeyDrawn(cfg, w, r, x);
      }
    case ClientReceives(r) =>
      if Stage2(cfg, p, q, w) {
        NewNonceDrawn(cfg, p, q, w, r, x);
      } else if Stage4(cfg, w) {
        ClientSecretDrawn(cfg, w, r, x);
      } else {
        ClientKeyDrawn(cfg, w, r, x);
      }
  }

  // ---------------------------------------------------------------- every run

  lemma {:induction false} StepKeeps(cfg: Config, p: nat, q: nat, w: World, s: Step)
    requires cfg.Valid() && Primes(p, q) && Inv(cfg, p, q, w) && Enabled(w, s)
    ensures Inv(cfg, p, q, After(cfg, w, s))
  {
    match s
    case Start(nonce, r) =>
      assert Stage1(p, q, After(cfg, w, s));
    case ServerReceives(r) =>
      if Stage1(p, q, w) {
        FirstStep(cfg, p, q, w, r);
      } else if Stage3(cfg, p, q, w) {
        if w.last.divider == p * q {
          ServerRefuses(cfg, p, q, w, r);
        } else {
          ServerTakes(cfg, p, q, w, r);
        }
      } else {
        ServerFinishes(cfg, w, r);
      }
    case ClientReceives(r) =>
      if Stage2(cfg, p, q, w) {
        ClientSplits(cfg, p, q, w, r);
      } else if Stage4(cfg, w) {
        ClientTakes(cfg, w, r);
      } else {
        ClientFinishes(cfg, w, r);
      }
  }

  lemma {:induction false} RunKeeps(cfg: Config, p: nat, q: nat, r: Random, steps: seq<Step>)
    requires cfg.Valid() && Primes(p, q) && IsRun(cfg, StartWorld(p, q, r), steps)
    ensures Inv(cfg, p, q, RunOf(cfg, StartWorld(p, q, r), steps))
    decreases |steps|
  {
    if steps != [] {
      var init := steps[..|steps| - 1];
      RunKeeps(cfg, p, q, r, init);
      StepKeeps(cfg, p, q, RunOf(cfg, StartWorld(p, q, r), init), steps[|steps| - 1]);
    }
  }

  /**
   In every run: a client that has a key talks to a server that has a key, both keys are
   the same bytes and both salts the same number.
   */
  lemma {:induction false} KeysAgree(cfg: Config, p: nat, q: nat, r: Random, steps: seq<Step>)
    requires cfg.Valid() && Primes(p, q) && IsRun(cfg, StartWorld(p, q, r), steps)
    ensures var w := RunOf(cfg, StartWorld(p, q, r), steps);
            w.client.state == HasKey ==>
              && w.server.state == HasKey
              && w.client.authKey == w.server.authKey && w.client.salt == w.server.salt
              && w.client.authKey ==
                   ModExp(ModExp(Big(GENERATOR, 4), cfg.dhPrime, w.server.secret), cfg.dhPrime, w.client.secret)
  {
    RunKeeps(cfg, p, q, r, steps);
  }

  /**
   What the next packet of any run does: the exchange goes on except in three cases, namely
   the client found only the divider one, or only the number itself, or the window over
   which it computes the hash reaches into the padding and the hash differs.
   */
  lemma {:induction false} FailsExactly(cfg: Config, p: nat, q: nat, r: Random, steps: seq<Step>, s: Step)
    requires cfg.Valid() && Primes(p, q) && IsRun(cfg, StartWorld(p, q, r), steps)
    requires Enabled(RunOf(cfg, StartWorld(p, q, r), steps), s)
    ensures var w := RunOf(cfg, StartWorld(p, q, r), steps);
            var w' := After(cfg, w, s);
            match s
            case Start(_, _) => w'.client.state == PqRequested
            case ServerReceives(_) =>
              (match w.client.state
               case PqRequested => w'.server.state == PqReplied
               case DhRequested => w'.server.state == (if w.last.divider != p * q then DhRepliedOk else Failed)
               case _ => w'.server.state == HasKey)
            case ClientReceives(r') =>
              (match w.client.state
               case PqRequested => w'.client.state == (if r'.divider != 1 then DhRequested else Failed)
               case DhRequested =>
                 w'.client.state ==
                 (if HashFits(cfg, w.server, w.last.time, w.last.noise) then DhGenerationResultRequested else Failed)
               case _ => w'.client.state == HasKey)
  {
    RunKeeps(cfg, p, q, r, steps);
    var w := RunOf(cfg, StartWorld(p, q, r), steps);
    match s
    case Start(nonce, r') =>
    case ServerReceives(r') =>
      if Stage1(p, q, w) {
        FirstStep(cfg, p, q, w, r');
      } else if Stage3(cfg, p, q, w) {
        if w.last.divider == p * q {
          ServerRefuses(cfg, p, q, w, r');
        } else {
          ServerTakes(cfg, p, q, w, r');
        }
      } else {
        ServerFinishes(cfg, w, r');
      }
    case ClientReceives(r') =>
      if Stage2(cfg, p, q, w) {
        ClientSplits(cfg, p, q, w, r');
      } else if Stage4(cfg, w) {
        ClientTakes(cfg, w, r');
      } else {
        ClientFinishes(cfg, w, r');
      }
  }

  /**
   In every run both sides use what was drawn in the run: the nonces of the step that drew
   them, the temporary key and the salt of those nonces, and the key of both drawn secrets.
   */
  lemma {:induction false} DrawnValuesUsed(cfg: Config, p: nat, q: nat, r: Random, steps: seq<Step>)
    requires cfg.Valid() && Primes(p, q) && IsRun(cfg, StartWorld(p, q, r), steps)
    ensures BothUse(cfg, RunOf(cfg, StartWorld(p, q, r), steps), Drawn(cfg, StartWorld(p, q, r), steps))
    decreases |steps|
  {
    if steps != [] {
      var init := steps[..|steps| - 1];
      var w := StartWorld(p, q, r);
      DrawnValuesUsed(cfg, p, q, r, init);
      RunKeeps(cfg, p, q, r, init);
      StepUses(cfg, p, q, RunOf(cfg, w, init), steps[|steps| - 1], Drawn(cfg, w, init));
    }
  }

  /** Each value is taken from the very step that leads to the state in which it is needed. */
  lemma {:induction false} DrawnNow(cfg: Config, p: nat, q: nat, r: Random, steps: seq<Step>, s: Step)
    requires cfg.Valid() && Primes(p, q) && IsRun(cfg, StartWorld(p, q, r), steps)
    requires Enabled(RunOf(cfg, StartWorld(p, q, r), steps), s)
    ensures var w := After(cfg, RunOf(cfg, StartWorld(p, q, r), steps), s);
            match s
            case Start(nonce, _) => w.client.clientNonce == nonce
            case ServerReceives(r') =>
              && (w.server.state == PqReplied ==> w.server.serverNonce == r'.nonce)
              && (w.server.state == DhRepliedOk ==> w.server.secret == r'.secret)
            case ClientReceives(r') =>
              && (w.client.state == DhRequested ==> w.client.newNonce == r'.newNonce)
              && (w.client.state == DhGenerationResultRequested ==> w.client.secret == r'.secret)
  {
    RunKeeps(cfg, p, q, r, steps);
    DrawnValuesUsed(cfg, p, q, r, steps);
    FailsExactly(cfg, p, q, r, steps, s);
    StepUses(cfg, p, q, RunOf(cfg, StartWorld(p, q, r), steps), s, Drawn(cfg, StartWorld(p, q, r), steps));
  }

  /**
   A failing input: if the server has drawn the exponent one, the client refuses its honest
   answer, or the padding of that answer makes a collision of SHA-1.
   */
  lemma {:induction false} SecretOneRefused(cfg: Config, p: nat, q: nat, r: Random, steps: seq<Step>, r': Random)
    requires cfg.Valid() && Primes(p, q) && IsRun(cfg, StartWorld(p, q, r), steps)
    requires var w := RunOf(cfg, StartWorld(p, q, r), steps);
             && w.server.state == DhRepliedOk && w.client.state == DhRequested && w.server.secret == SecretOne()
             && Enabled(w, ClientReceives(r'))
    ensures var w := RunOf(cfg, StartWorld(p, q, r), steps);
            var inner, x := ServerInner(w.server, w.last.time), PaddingInWindow(w.server, w.last.time, w.last.noise);
            && x != []
            && (After(cfg, w, ClientReceives(r')).client.state == Failed <==>
                  cfg.crypto.sha1(inner + x) != cfg.crypto.sha1(inner))
  {
    RunKeeps(cfg, p, q, r, steps);
    var w := RunOf(cfg, StartWorld(p, q, r), steps);
    assert Stage4(cfg, w);
    OneByteValue(cfg, w.server);
    OneByteDoesNotFit(w.server);
    HashFitsIff(cfg, w.server, w.last.time, w.last.noise);
    ClientTakes(cfg, w, r');
  }

  lemma {:induction false} RunMore(cfg: Config, w: World, steps: seq<Step>, s: Step)
    requires IsRun(cfg, w, steps) && Enabled(RunOf(cfg, w, steps), s)
    ensures IsRun(cfg, w, steps + [s]) && RunOf(cfg, w, steps + [s]) == After(cfg, RunOf(cfg, w, steps), s)
  {
    assert (steps + [s])[..|steps|] == steps;
  }

  /** With the right divider the client gets as far as asking for the parameters. */
  lemma {:induction false} ParametersAsked(cfg: Config, p: nat, q: nat, r: Random) returns (steps: seq<Step>)
    requires cfg.Valid() && Primes(p, q) && r.time < TWO32 && r.divider == p
    ensures IsRun(cfg, StartWorld(p, q, r), steps) && Stage3(cfg, p, q, RunOf(cfg, StartWorld(p, q, r), steps))
    ensures RunOf(cfg, StartWorld(p, q, r), steps).last == r
  {
    var w := StartWorld(p, q, r);
    steps := [];
    RunMore(cfg, w, steps, Start(r.nonce, r));
    steps := steps + [Start(r.nonce, r)];
    var w1 := RunOf(cfg, w, steps);
    assert Stage1(p, q, w1);
    FirstStep(cfg, p, q, w1, r);
    RunMore(cfg, w, steps, ServerReceives(r));
    steps := steps + [ServerReceives(r)];
    var w2 := RunOf(cfg, w, steps);
    ProductFits(p, q);
    DividesTimes(p, q);
    assert q * p == p * q;
    ClientSplits(cfg, p, q, w2, r);
    RunMore(cfg, w, steps, ClientReceives(r));
    steps := steps + [ClientReceives(r)];
  }

  lemma {:induction false} SecretDrawn(cfg: Config, p: nat, q: nat, w: World, r: Random)
    requires cfg.Valid() && Primes(p, q) && Stage3(cfg, p, q, w) && Enabled(w, ServerReceives(r))
    requires w.last.divider != p * q
    ensures After(cfg, w, ServerReceives(r)).server.secret == r.secret
  {
    FactorsFoundIff(p, q, w.last.divider);
    ParamsReaction(cfg, p, q, w.client, w.server, w.last.noise, r);
  }

  lemma {:induction false} ProperFactor(p: nat, q: nat)
    requires p > 0 && q >= 2
    ensures p != p * q
  {
    MulMonotone(2, q, p);
    assert p * q == q * p;
  }

  lemma {:induction false} AnswerAwaited(cfg: Config, w: World, r: Random)
    requires Stage4(cfg, w) && r.divider > 0
    ensures w.server.state == DhRepliedOk && w.client.state == DhRequested && Enabled(w, ClientReceives(r))
  {
  }

  /** There is such a run for every configuration: the server may draw any secret. */
  lemma {:induction false} AnySecretReached(cfg: Config, p: nat, q: nat, r: Random) returns (steps: seq<Step>)
    requires cfg.Valid() && Primes(p, q) && r.time < TWO32 && r.divider == p
    ensures IsRun(cfg, StartWorld(p, q, r), steps)
    ensures var w := RunOf(cfg, StartWorld(p, q, r), steps);
            && w.server.state == DhRepliedOk && w.client.state == DhRequested && w.server.secret == r.secret
            && Enabled(w, ClientReceives(r))
  {
    steps := ParametersAsked(cfg, p, q, r);
    var w := RunOf(cfg, StartWorld(p, q, r), steps);
    ProperFactor(p, q);
    ServerTakes(cfg, p, q, w, r);
    SecretDrawn(cfg, p, q, w, r);
    AnswerAwaited(cfg, After(cfg, w, ServerReceives(r)), r);
    RunMore(cfg, StartWorld(p, q, r), steps, ServerReceives(r));
    steps := steps + [ServerReceives(r)];
  }

  /** The packets of a successful exchange after the server's answer. */
  lemma {:induction false} LastThree(cfg: Config, p: nat, q: nat, r: Random, steps: seq<Step>) returns (all: seq<Step>)
    requires cfg.Valid() && Primes(p, q) && IsRun(cfg, StartWorld(p, q, r), steps) && r.time < TWO32 && r.divider > 0
    requires var w := RunOf(cfg, StartWorld(p, q, r), steps);
             Stage4(cfg, w) && HashFits(cfg, w.server, w.last.time, w.last.noise)
    ensures IsRun(cfg, StartWorld(p, q, r), all) && Stage7(cfg, RunOf(cfg, StartWorld(p, q, r), all))
  {
    var w := StartWorld(p, q, r);
    var w4 := RunOf(cfg, w, steps);
    AnswerAwaited(cfg, w4, r);
    ClientTakes(cfg, w4, r);
    RunMore(cfg, w, steps, ClientReceives(r));
    all := steps + [ClientReceives(r)];
    var w5 := RunOf(cfg, w, all);
    ServerFinishes(cfg, w5, r);
    RunMore(cfg, w, all, ServerReceives(r));
    all := all + [ServerReceives(r)];
    var w6 := RunOf(cfg, w, all);
    ClientFinishes(cfg, w6, r);
    RunMore(cfg, w, all, ClientReceives(r));
    all := all + [ClientReceives(r)];
  }

  /** With a proper divider and a public value whose size fits there is a run that gives both sides the key. */
  lemma {:induction false} BothGetKey(cfg: Config, p: nat, q: nat, r: Random) returns (all: seq<Step>)
    requires cfg.Valid() && Primes(p, q) && r.time < TWO32 && r.divider == p
    requires var n := |ModExp(Big(GENERATOR, 4), cfg.dhPrime, r.secret)|;
             n >= 254 || (324 + ArraySize(n)) % 16 == 0
    ensures IsRun(cfg, StartWorld(p, q, r), all)
    ensures var w := RunOf(cfg, StartWorld(p, q, r), all); w.client.state == HasKey && w.server.state == HasKey
  {
    var steps := AnySecretReached(cfg, p, q, r);
    RunKeeps(cfg, p, q, r, steps);
    var w := RunOf(cfg, StartWorld(p, q, r), steps);
    assert Stage4(cfg, w);
    ModExpSize(Big(GENERATOR, 4), cfg.dhPrime, r.secret);
    HashFitsIff(cfg, w.server, w.last.time, w.last.noise);
    all := LastThree(cfg, p, q, r, steps);
  }

  /**
   The client of any run that waits for the confirmation: exactly the confirmed refusals, or a
   confirmed empty key, take it to `HasKey` without a key.
   */
  lemma {:induction false} WaitingClientKeylessIff(
    cfg: Config, p: nat, q: nat, r: Random, steps: seq<Step>, m: Message, r': Random)
    requires cfg.Valid() && Primes(p, q) && IsRun(cfg, StartWorld(p, q, r), steps) && r'.divider > 0
    requires RunOf(cfg, StartWorld(p, q, r), steps).client.state == DhGenerationResultRequested
    ensures var c := RunOf(cfg, StartWorld(p, q, r), steps).client;
            var c' := ClientReceived(cfg, c, m, r').dh;
            c'.state == HasKey && c'.authKey == [] <==>
            Confirmed(cfg, c, m) && (!m.DhGenOk? || ModExp(c.gA, c.dhPrime, c.secret) == [])
  {
    RunKeeps(cfg, p, q, r, steps);
    KeylessIff(cfg, RunOf(cfg, StartWorld(p, q, r), steps).client, m, r');
  }

  /** Such a refusal for the client of any of these runs: the source's answer with the number two. */
  lemma {:induction false} RefusalLooksLikeSuccess(cfg: Config, p: nat, q: nat, r: Random, steps: seq<Step>, r': Random)
    requires cfg.Valid() && Primes(p, q) && IsRun(cfg, StartWorld(p, q, r), steps) && r'.divider > 0
    requires RunOf(cfg, StartWorld(p, q, r), steps).client.state == DhGenerationResultRequested
    ensures var c := RunOf(cfg, StartWorld(p, q, r), steps).client;
            var hash := AnswerHash(cfg.crypto, 2, c.newNonce, ModExp(c.gA, c.dhPrime, c.secret));
            var c' := ClientReceived(cfg, c, DhGenRetry(c.clientNonce, c.serverNonce, hash), r').dh;
            c'.state == HasKey && c'.authKey == []
  {
    var c := RunOf(cfg, StartWorld(p, q, r), steps).client;
    var hash := AnswerHash(cfg.crypto, 2, c.newNonce, ModExp(c.gA, c.dhPrime, c.secret));
    var m := DhGenRetry(c.clientNonce, c.serverNonce, hash);
    assert Confirmed(cfg, c, m);
    WaitingClientKeylessIff(cfg, p, q, r, steps, m, r');
  }
}
