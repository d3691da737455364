/**
 The authorization key exchange: the client's and the server's `DhLayer`. `Dh` is the state
 of one side, the functions below say what a packet does to it and what is answered, and the
 class `DhLayer` holds the handlers, proved against the functions.
 */
module KeyExchange {
  import opened Arithmetic
  import opened Bytes
  import opened BigNumbers
  import opened Factoring
  import opened RawStream

  type Nonce = s: seq<byte> | |s| == 16 witness Zeros(16)
  type LongNonce = s: seq<byte> | |s| == 32 witness Zeros(32)
  type Digest = s: seq<byte> | |s| == 20 witness Zeros(20)
  type Block = s: seq<byte> | |s| == 256 witness Zeros(256)

  datatype AesKey = AesKey(key: seq<byte>, iv: seq<byte>)

  /** The primitives; of SHA-1 only the size is known, of AES that decryption undoes encryption. */
  datatype Crypto = Crypto(
    sha1: seq<byte> -> Digest,
    encrypt: (AesKey, seq<byte>) -> seq<byte>,
    decrypt: (AesKey, seq<byte>) -> seq<byte>)
  {
    ghost predicate Lawful() {
      forall k: AesKey, d: seq<byte> :: |d| % 16 == 0 ==> decrypt(k, encrypt(k, d)) == d
    }
  }

  datatype Config = Config(crypto: Crypto, rsa: RsaKey, dhPrime: seq<byte>) {
    /** The modulus exceeds every block of 255 bytes; the prime has 2048 bits. */
    ghost predicate Valid() {
      && crypto.Lawful() && rsa.Valid() && FromBig(rsa.modulus) >= Pow256(255)
      && |dhPrime| == 256 && dhPrime[0] >= 128
    }
  }

  datatype Message =
    | ReqPq(clientNonce: Nonce)
    | ResPq(clientNonce: Nonce, serverNonce: Nonce, pq: seq<byte>, fingerprints: seq<nat>)
    | ReqDhParams(clientNonce: Nonce, serverNonce: Nonce, p: seq<byte>, q: seq<byte>, fingerprint: nat,
      encrypted: seq<byte>)
    | ServerDhParamsOk(clientNonce: Nonce, serverNonce: Nonce, encrypted: seq<byte>)
    | SetClientDhParams(clientNonce: Nonce, serverNonce: Nonce, encrypted: seq<byte>)
    | DhGenOk(clientNonce: Nonce, serverNonce: Nonce, hash: seq<byte>)
    | DhGenRetry(clientNonce: Nonce, serverNonce: Nonce, hash: seq<byte>)
    | DhGenFail(clientNonce: Nonce, serverNonce: Nonce, hash: seq<byte>)

  datatype State =
    | Idle | PqRequested | PqReplied | DhRequested | DhRepliedOk | DhGenerationResultRequested | Failed | HasKey

  /** The fields of `BaseDhLayer`, `secret` being `m_a` or `m_b`, with the key and salt that were set. */
  datatype Dh = Dh(
    state: State,
    clientNonce: Nonce, serverNonce: Nonce, newNonce: LongNonce,
    pq: nat, p: nat, q: nat,
    aes: AesKey, g: nat, dhPrime: seq<byte>, gA: seq<byte>, secret: seq<byte>,
    retryId: nat, authKey: seq<byte>, salt: nat)

  /** The random values of one handler, the server's clock and the divider found by the client. */
  datatype Random = Random(nonce: Nonce, newNonce: LongNonce, secret: Block, noise: Block, time: nat, divider: nat)

  datatype Reaction = Reaction(dh: Dh, out: seq<Message>)

  const NO_NONCE: Nonce := Zeros(16)
  const NO_LONG_NONCE: LongNonce := Zeros(32)
  const FRESH: Dh := Dh(Idle, NO_NONCE, NO_NONCE, NO_LONG_NONCE, 0, 0, 0, AesKey([], []), 0, [], [], [], 0, [], 0)

  const SERVER_P: nat := 1244159563
  const SERVER_Q: nat := 1558201013

  function FreshServer(p: nat, q: nat): Dh {
    FRESH.(p := p, q := q, pq := p * q)
  }

  function Fail(d: Dh): Reaction {
    Reaction(d.(state := Failed), [])
  }

  // ---------------------------------------------------------------- what both sides compute

  /** `QByteArray::mid`. */
  function Mid(s: seq<byte>, from: nat, n: nat): seq<byte> {
    s[Min(from, |s|)..Min(from + n, |s|)]
  }

  function TmpAesKey(c: Crypto, serverNonce: Nonce, newNonce: LongNonce): AesKey {
    var mixed := c.sha1(serverNonce + newNonce);
    AesKey(c.sha1(newNonce + serverNonce) + mixed[..12], mixed[12..20] + c.sha1(newNonce + newNonce) + newNonce[..4])
  }

  /** The parts of the key and of the vector, each with the hash that it is taken from. */
  lemma {:induction false} TmpAesKeyParts(c: Crypto, serverNonce: Nonce, newNonce: LongNonce)
    ensures var k := TmpAesKey(c, serverNonce, newNonce);
            && |k.key| == 32 && |k.iv| == 32
            && k.key[..20] == c.sha1(newNonce + serverNonce)
            && k.key[20..] + k.iv[..8] == c.sha1(serverNonce + newNonce)
            && k.iv[8..28] == c.sha1(newNonce + newNonce)
            && k.iv[28..] == newNonce[..4]
  {
    var first, mixed, last := c.sha1(newNonce + serverNonce), c.sha1(serverNonce + newNonce),
      c.sha1(newNonce + newNonce);
    Parts(first, mixed, last, newNonce[..4]);
  }

  lemma {:induction false} Parts(first: Digest, mixed: Digest, last: Digest, end: seq<byte>)
    requires |end| == 4
    ensures var key, iv := first + mixed[..12], mixed[12..20] + last + end;
            && |key| == 32 && |iv| == 32
            && key[..20] == first && key[20..] + iv[..8] == mixed && iv[8..28] == last && iv[28..] == end
  {
  }

  function Salt(serverNonce: Nonce, newNonce: LongNonce): nat {
    FromLittle(XorEach(serverNonce[..8], newNonce[..8]))
  }

  /** The salt is the exclusive or of the first 64 bits of both nonces. */
  lemma {:induction false} SaltIsXor(serverNonce: Nonce, newNonce: LongNonce)
    ensures Salt(serverNonce, newNonce) == XorBits(FromLittle(serverNonce[..8]), FromLittle(newNonce[..8]), 64)
  {
    XorOfNumbers(serverNonce[..8], newNonce[..8], 64);
  }

  /** The hash with which the server confirms the key; `number` is one, or two or three for a refusal. */
  function AnswerHash(c: Crypto, number: byte, newNonce: LongNonce, authKey: seq<byte>): seq<byte> {
    c.sha1(newNonce + [number] + c.sha1(authKey)[..8])[4..]
  }

  function PaddingTo16(n: nat): nat {
    if n % 16 != 0 then 16 - n % 16 else 0
  }

  /** Hash, data and random padding up to whole AES blocks. */
  function Sealed(c: Crypto, inner: seq<byte>, noise: Block): seq<byte> {
    c.sha1(inner) + inner + noise[..PaddingTo16(20 + |inner|)]
  }

  const PQ_INNER: nat := 0x83c95aec
  const SERVER_DH_INNER: nat := 0xb5890dba
  const CLIENT_DH_INNER: nat := 0x6643b654

  const PQ_LAYOUT: seq<Field> := [Fixed(4), Array, Array, Array, Fixed(16), Fixed(16), Fixed(32)]
  const SERVER_DH_LAYOUT: seq<Field> := [Fixed(4), Fixed(16), Fixed(16), Fixed(4), Array, Array, Fixed(4)]
  const CLIENT_DH_LAYOUT: seq<Field> := [Fixed(4), Fixed(16), Fixed(16), Fixed(8), Array]

  function Values(layout: seq<Field>, data: seq<byte>): (vs: seq<seq<byte>>)
    ensures |vs| == |layout|
  {
    Decoded(layout, Input(data, false)).values
  }

  // ---------------------------------------------------------------- the client

  function PqInnerValues(d: Dh): (vs: seq<seq<byte>>)
    ensures |vs| == 7
  {
    [Little(PQ_INNER, 4), Big(d.pq, 8), Big(d.p, 4), Big(d.q, 4), d.clientNonce, d.serverNonce, d.newNonce]
  }

  const RSA_BLOCK: nat := 255

  /** The block of 255 bytes that is encrypted with the server's key. */
  function PqBlock(c: Crypto, d: Dh, noise: Block): seq<byte> {
    var inner := Encoded(PQ_LAYOUT, PqInnerValues(d));
    var size := 20 + |inner|;
    c.sha1(inner) + inner + (if size <= RSA_BLOCK then noise[..RSA_BLOCK - size] else [])
  }

  function DhParamsRequest(cfg: Config, d: Dh, noise: Block): Message {
    ReqDhParams(
      d.clientNonce, d.serverNonce, Big(d.p, 4), Big(d.q, 4), cfg.rsa.fingerprint,
      ModExp(PqBlock(cfg.crypto, d, noise), cfg.rsa.modulus, cfg.rsa.exponent))
  }

  function PqAccepted(d: Dh, pq: nat, divider: nat): Dh
    requires divider > 0
  {
    var (p, q) := Factors(pq, divider);
    d.(pq := pq, p := p, q := q)
  }

  predicate DividerOk(m: Message, divider: nat) {
    divider > 0 && (m.ResPq? && FromBig(m.pq) >= 2 ==> Divides(divider, FromBig(m.pq)))
  }

  /** The client gets as far as the search for a divider. */
  predicate Searches(d: Dh, m: Message) {
    m.ResPq? && m.clientNonce == d.clientNonce && |m.pq| == 8 && FromBig(m.pq) >= 2
  }

  /** A divider, and exactly when it is the number itself and when it is one. */
  ghost predicate SearchResult(d: Dh, m: Message, rand: nat -> nat, divider: nat) {
    && DividerOk(m, divider)
    && (Searches(d, m) && FromBig(m.pq) <= TWO63 ==>
          && (divider == FromBig(m.pq) <==> ReturnsNumber(FromBig(m.pq), rand))
          && (divider == 1 <==> RoundsSilent(FromBig(m.pq), rand, 3)))
  }

  /** `acceptPqAuthorization`: whether it accepts, and the state it leaves. */
  function PqChecked(cfg: Config, d: Dh, m: Message, divider: nat): (bool, Dh)
    requires divider > 0
  {
    if !m.ResPq? || m.clientNonce != d.clientNonce then (false, d)
    else
      var d1 := d.(serverNonce := m.serverNonce);
      if |m.pq| != 8 then (false, d1)
      else if FromBig(m.pq) < 2 || divider == 1 then (false, d1.(pq := FromBig(m.pq)))
      else (m.fingerprints == [cfg.rsa.fingerprint], PqAccepted(d1, FromBig(m.pq), divider))
  }

  function OnPqAnswer(cfg: Config, d: Dh, m: Message, r: Random): Reaction
    requires r.divider > 0
  {
    var (accepted, d1) := PqChecked(cfg, d, m, r.divider);
    if !accepted then Fail(d1)
    else
      var d2 := d1.(newNonce := r.newNonce, state := DhRequested);
      Reaction(d2, [DhParamsRequest(cfg, d2, r.noise)])
  }

  /** The part of the decrypted answer whose hash the client compares: a fixed window. */
  function AnswerWindow(plain: seq<byte>): seq<byte> {
    Mid(plain, 20, 564)
  }

  function ServerParamsTaken(d: Dh, vs: seq<seq<byte>>): Dh
    requires |vs| == 7
  {
    d.(g := FromLittle(vs[3]), dhPrime := vs[4], gA := vs[5])
  }

  predicate ParamsAcceptable(d: Dh) {
    2 <= d.g <= 7 && |d.dhPrime| == 256 && d.dhPrime[0] >= 128
  }

  function ClientInnerValues(d: Dh): (vs: seq<seq<byte>>)
    ensures |vs| == 5
  {
    [Little(CLIENT_DH_INNER, 4), d.clientNonce, d.serverNonce, Little(d.retryId, 8),
      ModExp(Big(d.g, 4), d.dhPrime, d.secret)]
  }

  function DhGenerationRequest(cfg: Config, d: Dh, noise: Block): Message {
    var inner := Encoded(CLIENT_DH_LAYOUT, ClientInnerValues(d));
    SetClientDhParams(d.clientNonce, d.serverNonce, cfg.crypto.encrypt(d.aes, Sealed(cfg.crypto, inner, noise)))
  }

  /** `processServerDHParamsOK`: whether it accepts, and the state it leaves. */
  function ParamsChecked(cfg: Config, d: Dh, encrypted: seq<byte>): (bool, Dh) {
    var d1 := d.(aes := TmpAesKey(cfg.crypto, d.serverNonce, d.newNonce));
    var plain := cfg.crypto.decrypt(d1.aes, encrypted);
    if cfg.crypto.sha1(AnswerWindow(plain)) != Mid(plain, 0, 20) then (false, d1)
    else
      var vs := Values(SERVER_DH_LAYOUT, AnswerWindow(plain));
      if FromLittle(vs[0]) != SERVER_DH_INNER || vs[1] != d.clientNonce || vs[2] != d.serverNonce then (false, d1)
      else
        var d2 := ServerParamsTaken(d1, vs);
        (ParamsAcceptable(d2), d2)
  }

  function OnDhParamsAnswer(cfg: Config, d: Dh, m: Message, r: Random): Reaction {
    if !m.ServerDhParamsOk? || m.clientNonce != d.clientNonce || m.serverNonce != d.serverNonce then Fail(d)
    else
      var (accepted, d1) := ParamsChecked(cfg, d, m.encrypted);
      if !accepted then Fail(d1)
      else
        var d2 := d1.(secret := r.secret, state := DhGenerationResultRequested);
        Reaction(d2, [DhGenerationRequest(cfg, d2, r.noise)])
  }

  function AnswerNumber(m: Message): byte {
    if m.DhGenOk? then 1 else if m.DhGenRetry? then 2 else 3
  }

  /** The identification of the refused key, zero if there is none. */
  function RetryIdOf(c: Crypto, authKey: seq<byte>): nat {
    if authKey == [] then 0 else FromLittle(c.sha1(authKey)[..8])
  }

  /** A confirmed refusal makes the client try again, but also takes it to `HasKey`. */
  function OnDhGenerationAnswer(cfg: Config, d: Dh, m: Message, r: Random): Reaction {
    if !(m.DhGenOk? || m.DhGenRetry? || m.DhGenFail?) || m.clientNonce != d.clientNonce || m.serverNonce !=
      d.serverNonce
    then Fail(d)
    else
      var authKey := ModExp(d.gA, d.dhPrime, d.secret);
      if m.hash != AnswerHash(cfg.crypto, AnswerNumber(m), d.newNonce, authKey) then Fail(d)
      else if m.DhGenOk? then
        Reaction(d.(state := HasKey, authKey := authKey, salt := Salt(d.serverNonce, d.newNonce)), [])
      else
        var d1 := d.(retryId := RetryIdOf(cfg.crypto, authKey), secret := r.secret);
        Reaction(d1.(state := HasKey), [DhGenerationRequest(cfg, d1, r.noise)])
  }

  /** The answer is for this exchange and carries the hash of the key that the client computes. */
  predicate Confirmed(cfg: Config, d: Dh, m: Message) {
    && (m.DhGenOk? || m.DhGenRetry? || m.DhGenFail?)
    && m.clientNonce == d.clientNonce && m.serverNonce == d.serverNonce
    && m.hash == AnswerHash(cfg.crypto, AnswerNumber(m), d.newNonce, ModExp(d.gA, d.dhPrime, d.secret))
  }

  /**
   When `HasKey` means that there is a key: a client that had none is in `HasKey` without one if
   and only if the answer was confirmed and either refused the key or confirmed an empty one.
   */
  lemma {:induction false} KeylessIff(cfg: Config, d: Dh, m: Message, r: Random)
    requires d.authKey == []
    ensures var d' := OnDhGenerationAnswer(cfg, d, m, r).dh;
            d'.state == HasKey && d'.authKey == [] <==>
            Confirmed(cfg, d, m) && (!m.DhGenOk? || ModExp(d.gA, d.dhPrime, d.secret) == [])
  {
  }

  function ClientStarted(d: Dh, nonce: Nonce): Reaction {
    Reaction(d.(retryId := 0, clientNonce := nonce, state := PqRequested), [ReqPq(nonce)])
  }

  /** An answer goes to the operation that waits for it; without one it is dropped. */
  function ClientReceived(cfg: Config, d: Dh, m: Message, r: Random): Reaction
    requires r.divider > 0
  {
    match d.state
    case PqRequested => OnPqAnswer(cfg, d, m, r)
    case DhRequested => OnDhParamsAnswer(cfg, d, m, r)
    case DhGenerationResultRequested => OnDhGenerationAnswer(cfg, d, m, r)
    case _ => Reaction(d, [])
  }

  // ---------------------------------------------------------------- the server

  function PqAnswer(cfg: Config, d: Dh): Message {
    ResPq(d.clientNonce, d.serverNonce, Big(d.pq, 8), [cfg.rsa.fingerprint])
  }

  function OnReqPq(cfg: Config, d: Dh, m: Message, r: Random): Reaction
    requires m.ReqPq?
  {
    var d1 := d.(clientNonce := m.clientNonce, serverNonce := r.nonce, state := PqReplied);
    Reaction(d1, [PqAnswer(cfg, d1)])
  }

  /** Zeros that the big number dropped are put back in front. */
  function Opened(rsa: RsaKey, encrypted: seq<byte>): seq<byte> {
    var plain := ModExp(encrypted, rsa.modulus, rsa.secret);
    if |plain| < RSA_BLOCK then Zeros(RSA_BLOCK - |plain|) + plain else plain
  }

  /** The inner data is read field by field; what was stored before a refusal stays stored. */
  function PqInnerTaken(d: Dh, vs: seq<seq<byte>>): Dh
    requires |vs| == 7
  {
    if FromLittle(vs[0]) != PQ_INNER || |vs[1]| != 8 then d.(state := Failed)
    else if |vs[2]| != 4 then d.(state := Failed, pq := FromBig(vs[1]))
    else if |vs[3]| != 4 then d.(state := Failed, pq := FromBig(vs[1]), p := FromBig(vs[2]))
    else
      var d1 := d.(pq := FromBig(vs[1]), p := FromBig(vs[2]), q := FromBig(vs[3]));
      if vs[4] != d.clientNonce || vs[5] != d.serverNonce || |vs[6]| != 32 then d1.(state := Failed)
      else d1.(newNonce := vs[6], state := DhRepliedOk)
  }

  const GENERATOR: nat := 7

  function ServerInnerValues(d: Dh, time: nat): (vs: seq<seq<byte>>)
    ensures |vs| == 7
  {
    [Little(SERVER_DH_INNER, 4), d.clientNonce, d.serverNonce, Little(d.g, 4), d.dhPrime, d.gA, Little(time, 4)]
  }

  function DhParamsAnswer(cfg: Config, d: Dh, time: nat, noise: Block): Message {
    var inner := Encoded(SERVER_DH_LAYOUT, ServerInnerValues(d, time));
    ServerDhParamsOk(d.clientNonce, d.serverNonce, cfg.crypto.encrypt(d.aes, Sealed(cfg.crypto, inner, noise)))
  }

  function DhParamsChosen(cfg: Config, d: Dh, secret: Block): Dh {
    d.(g := GENERATOR, dhPrime := cfg.dhPrime, secret := secret,
       gA := ModExp(Big(GENERATOR, 4), cfg.dhPrime, secret),
       aes := TmpAesKey(cfg.crypto, d.serverNonce, d.newNonce))
  }

  function OnReqDhParams(cfg: Config, d: Dh, m: Message, r: Random): Reaction
    requires m.ReqDhParams?
  {
    if m.clientNonce != d.clientNonce || m.serverNonce != d.serverNonce then Fail(d)
    else if FromBig(Mid(m.p, 0, 4)) != d.p || FromBig(Mid(m.q, 0, 4)) != d.q then Fail(d)
    else if m.fingerprint != cfg.rsa.fingerprint then Fail(d)
    else
      var d1 := PqInnerTaken(d, Values(PQ_LAYOUT, Mid(Opened(cfg.rsa, m.encrypted), 20, RSA_BLOCK)));
      if d1.state == Failed then Reaction(d1, [])
      else
        var d2 := DhParamsChosen(cfg, d1, r.secret);
        Reaction(d2, [DhParamsAnswer(cfg, d2, r.time, r.noise)])
  }

  function ClientInnerTaken(cfg: Config, d: Dh, vs: seq<seq<byte>>): Reaction
    requires |vs| == 5
  {
    if FromLittle(vs[0]) != CLIENT_DH_INNER || vs[1] != d.clientNonce || vs[2] != d.serverNonce then Fail(d)
    else
      var authKey := ModExp(vs[4], d.dhPrime, d.secret);
      Reaction(
        d.(retryId := FromLittle(vs[3]), authKey := authKey, salt := Salt(d.serverNonce, d.newNonce), state := HasKey),
        [DhGenOk(d.clientNonce, d.serverNonce, AnswerHash(cfg.crypto, 1, d.newNonce, authKey))])
  }

  function OnSetClientDhParams(cfg: Config, d: Dh, m: Message): Reaction
    requires m.SetClientDhParams?
  {
    if m.clientNonce != d.clientNonce || m.serverNonce != d.serverNonce then Fail(d)
    else ClientInnerTaken(cfg, d, Values(CLIENT_DH_LAYOUT, Mid(cfg.crypto.decrypt(d.aes, m.encrypted), 20, 304)))
  }

  /** The server decides by the kind of the packet alone. */
  function ServerReceived(cfg: Config, d: Dh, m: Message, r: Random): Reaction {
    match m
    case ReqPq(_) => OnReqPq(cfg, d, m, r)
    case ReqDhParams(_, _, _, _, _, _) => OnReqDhParams(cfg, d, m, r)
    case SetClientDhParams(_, _, _) => OnSetClientDhParams(cfg, d, m)
    case _ => Reaction(d, [])
  }

  // ---------------------------------------------------------------- the layers

  /** `BaseDhLayer` with the handlers of the client and of the server; `d` are its fields. */
  class DhLayer {
    const cfg: Config
    var d: Dh
    var sent: seq<Message>

    constructor Client(cfg: Config)
      ensures d == FRESH && sent == [] && this.cfg == cfg
    {
      this.cfg := cfg;
      d, sent := FRESH, [];
    }

    constructor Server(cfg: Config)
      ensures d == FreshServer(SERVER_P, SERVER_Q) && sent == [] && this.cfg == cfg
    {
      this.cfg := cfg;
      d, sent := FRESH.(p := SERVER_P, q := SERVER_Q, pq := SERVER_P * SERVER_Q), [];
    }

    method SendPlainPackage(m: Message)
      modifies this`sent
      ensures sent == old(sent) + [m]
    {
      sent := sent + [m];
    }

    method GenerateTmpAesKey() returns (k: AesKey)
      ensures k == TmpAesKey(cfg.crypto, d.serverNonce, d.newNonce)
    {
      var newAndServer := d.newNonce + d.serverNonce;
      var serverAndNew := d.serverNonce + d.newNonce;
      var newAndNew := d.newNonce + d.newNonce;
      var key := cfg.crypto.sha1(newAndServer) + cfg.crypto.sha1(serverAndNew)[..12];
      var iv := cfg.crypto.sha1(serverAndNew)[12..20] + cfg.crypto.sha1(newAndNew) + d.newNonce[..4];
      k := AesKey(key, iv);
    }

    /** Hash, data and padding up to whole blocks, encrypted with the temporary key. */
    method EncryptInner(inner: seq<byte>, noise: Block) returns (encrypted: seq<byte>)
      ensures encrypted == cfg.crypto.encrypt(d.aes, Sealed(cfg.crypto, inner, noise))
    {
      var sha := cfg.crypto.sha1(inner);
      var randomPadding: seq<byte> := [];
      var packageLength := |sha| + |inner|;
      if packageLength % 16 != 0 {
        randomPadding := noise[..16 - packageLength % 16];
      }
      assert sha + inner + randomPadding == Sealed(cfg.crypto, inner, noise);
      encrypted := cfg.crypto.encrypt(d.aes, sha + inner + randomPadding);
    }

    // ------------------------------------------------------------ client

    method Init(nonce: Nonce)
      modifies this
      ensures var x := ClientStarted(old(d), nonce); d == x.dh && sent == old(sent) + x.out
    {
      d := d.(retryId := 0);
      d := d.(clientNonce := nonce);
      SendPlainPackage(ReqPq(d.clientNonce));
      d := d.(state := PqRequested);
    }

    /** `divider` is what the search returned, if it was made, and one otherwise. */
    method AcceptPqAuthorization(m: Message, rand: nat -> nat) returns (accepted: bool, ghost divider: nat)
      modifies this`d
      ensures SearchResult(old(d), m, rand, divider)
      ensures (accepted, d) == PqChecked(cfg, old(d), m, divider)
    {
      divider := 1;
      if m.ResPq? {
        DividesTimes(1, FromBig(m.pq));
      }
      if !m.ResPq? || m.clientNonce != d.clientNonce {
        return false, divider;
      }
      d := d.(serverNonce := m.serverNonce);
      if |m.pq| != 8 {
        return false, divider;
      }
      FromBigBound(m.pq);
      assert Pow256(8) == TWO64;
      d := d.(pq := FromBig(m.pq));
      if d.pq < 2 {
        return false, divider;
      }
      ghost var rounds;
      var div1;
      div1, rounds := FindDivider(d.pq, rand);
      divider := div1;
      if div1 == 1 {
        return false, divider;
      }
      var div2 := d.pq / div1;
      if div1 < div2 {
        d := d.(p := div1 % TWO32, q := div2 % TWO32);
      } else {
        d := d.(p := div2 % TWO32, q := div1 % TWO32);
      }
      accepted := |m.fingerprints| == 1 && m.fingerprints[0] == cfg.rsa.fingerprint;
    }

    method RequestDhParameters(noise: Block)
      modifies this`sent
      ensures sent == old(sent) + [DhParamsRequest(cfg, d, noise)]
    {
      var inner := Encoded(PQ_LAYOUT, PqInnerValues(d));
      var sha := cfg.crypto.sha1(inner);
      var length := |sha| + |inner|;
      var randomPadding := if length <= RSA_BLOCK then noise[..RSA_BLOCK - length] else [];
      var package := ModExp(sha + inner + randomPadding, cfg.rsa.modulus, cfg.rsa.exponent);
      SendPlainPackage(ReqDhParams(d.clientNonce, d.serverNonce, Big(d.p, 4), Big(d.q, 4), cfg.rsa.fingerprint,
        package));
    }

    method OnPqAuthorizationAnswer(m: Message, r: Random, rand: nat -> nat) returns (ghost divider: nat)
      modifies this
      ensures SearchResult(old(d), m, rand, divider)
      ensures var x := OnPqAnswer(cfg, old(d), m, r.(divider := divider)); d == x.dh && sent == old(sent) + x.out
    {
      var accepted;
      accepted, divider := AcceptPqAuthorization(m, rand);
      if !accepted {
        d := d.(state := Failed);
        return;
      }
      d := d.(newNonce := r.newNonce);
      d := d.(state := DhRequested);
      RequestDhParameters(r.noise);
    }

    method ProcessServerDhParamsOk(encrypted: seq<byte>) returns (accepted: bool)
      modifies this`d
      ensures (accepted, d) == ParamsChecked(cfg, old(d), encrypted)
    {
      var k := GenerateTmpAesKey();
      d := d.(aes := k);
      var answerWithHash := cfg.crypto.decrypt(d.aes, encrypted);
      var answer := Mid(answerWithHash, 20, 564);
      if cfg.crypto.sha1(answer) != Mid(answerWithHash, 0, 20) {
        return false;
      }
      var vs := Values(SERVER_DH_LAYOUT, answer);
      if FromLittle(vs[0]) != SERVER_DH_INNER || vs[1] != d.clientNonce || vs[2] != d.serverNonce {
        return false;
      }
      d := d.(g := FromLittle(vs[3]), dhPrime := vs[4], gA := vs[5]);
      if d.g < 2 || d.g > 7 || |d.dhPrime| != 256 {
        return false;
      }
      return d.dhPrime[0] >= 128;
    }

    method RequestDhGenerationResult(noise: Block)
      modifies this`sent
      ensures sent == old(sent) + [DhGenerationRequest(cfg, d, noise)]
    {
      var inner := Encoded(CLIENT_DH_LAYOUT, ClientInnerValues(d));
      var encrypted := EncryptInner(inner, noise);
      SendPlainPackage(SetClientDhParams(d.clientNonce, d.serverNonce, encrypted));
    }

    method OnDhParametersAnswer(m: Message, r: Random)
      modifies this
      ensures var x := OnDhParamsAnswer(cfg, old(d), m, r); d == x.dh && sent == old(sent) + x.out
    {
      var accepted := false;
      if m.ServerDhParamsOk? && m.clientNonce == d.clientNonce && m.serverNonce == d.serverNonce {
        accepted := ProcessServerDhParamsOk(m.encrypted);
      }
      if !accepted {
        d := d.(state := Failed);
        return;
      }
      d := d.(secret := r.secret);
      d := d.(state := DhGenerationResultRequested);
      RequestDhGenerationResult(r.noise);
    }

    method OnDhGenerationResultAnswer(m: Message, r: Random)
      modifies this
      ensures var x := OnDhGenerationAnswer(cfg, old(d), m, r); d == x.dh && sent == old(sent) + x.out
    {
      var number: byte := 0;
      if m.DhGenOk? {
        number := 1;
      } else if m.DhGenRetry? {
        number := 2;
      } else if m.DhGenFail? {
        number := 3;
      }
      if number == 0 || m.clientNonce != d.clientNonce || m.serverNonce != d.serverNonce {
        d := d.(state := Failed);
        return;
      }
      var newAuthKey := ModExp(d.gA, d.dhPrime, d.secret);
      var expectedHashData := d.newNonce + [number] + cfg.crypto.sha1(newAuthKey)[..8];
      if cfg.crypto.sha1(expectedHashData)[4..] != m.hash {
        d := d.(state := Failed);
        return;
      }
      if number == 1 {
        d := d.(salt := Salt(d.serverNonce, d.newNonce));
        d := d.(authKey := newAuthKey);
      } else {
        var retryId := 0;
        if newAuthKey != [] {
          retryId := FromLittle(cfg.crypto.sha1(newAuthKey)[..8]);
        }
        d := d.(retryId := retryId);
        d := d.(secret := r.secret);
        RequestDhGenerationResult(r.noise);
      }
      d := d.(state := HasKey);
    }

    // ------------------------------------------------------------ server

    method ProcessRequestPq(m: Message, r: Random)
      requires m.ReqPq?
      modifies this
      ensures var x := OnReqPq(cfg, old(d), m, r); d == x.dh && sent == old(sent) + x.out
    {
      d := d.(clientNonce := m.clientNonce);
      d := d.(serverNonce := r.nonce);
      SendPlainPackage(ResPq(d.clientNonce, d.serverNonce, Big(d.pq, 8), [cfg.rsa.fingerprint]));
      d := d.(state := PqReplied);
    }

    /** The inner data of the client, once its block is decrypted. */
    method ProcessPqInnerData(vs: seq<seq<byte>>) returns (accepted: bool)
      requires |vs| == 7
      modifies this`d
      ensures d.(state := if accepted then DhRepliedOk else Failed) == PqInnerTaken(old(d), vs)
    {
      if FromLittle(vs[0]) != PQ_INNER || |vs[1]| != 8 {
        return false;
      }
      d := d.(pq := FromBig(vs[1]));
      if |vs[2]| != 4 {
        return false;
      }
      d := d.(p := FromBig(vs[2]));
      if |vs[3]| != 4 {
        return false;
      }
      d := d.(q := FromBig(vs[3]));
      if vs[4] != d.clientNonce || vs[5] != d.serverNonce || |vs[6]| != 32 {
        return false;
      }
      d := d.(newNonce := vs[6]);
      return true;
    }

    method AcceptDhParams(r: Random)
      modifies this
      ensures d == DhParamsChosen(cfg, old(d), r.secret)
      ensures sent == old(sent) + [DhParamsAnswer(cfg, d, r.time, r.noise)]
    {
      d := d.(g := GENERATOR);
      d := d.(dhPrime := cfg.dhPrime);
      d := d.(secret := r.secret);
      d := d.(gA := ModExp(Big(d.g, 4), d.dhPrime, d.secret));
      var inner := Encoded(SERVER_DH_LAYOUT, ServerInnerValues(d, r.time));
      var k := GenerateTmpAesKey();
      d := d.(aes := k);
      var encrypted := EncryptInner(inner, r.noise);
      SendPlainPackage(ServerDhParamsOk(d.clientNonce, d.serverNonce, encrypted));
    }

    method ProcessRequestDhParams(m: Message, r: Random)
      requires m.ReqDhParams?
      modifies this
      ensures var x := OnReqDhParams(cfg, old(d), m, r); d == x.dh && sent == old(sent) + x.out
    {
      if m.clientNonce != d.clientNonce || m.serverNonce != d.serverNonce ||
         FromBig(Mid(m.p, 0, 4)) != d.p || FromBig(Mid(m.q, 0, 4)) != d.q || m.fingerprint != cfg.rsa.fingerprint {
        d := d.(state := Failed);
        return;
      }
      var decrypted := ModExp(m.encrypted, cfg.rsa.modulus, cfg.rsa.secret);
      if |decrypted| < RSA_BLOCK {
        decrypted := Zeros(RSA_BLOCK - |decrypted|) + decrypted;
      }
      var accepted := ProcessPqInnerData(Values(PQ_LAYOUT, Mid(decrypted, 20, RSA_BLOCK)));
      if !accepted {
        d := d.(state := Failed);
        return;
      }
      d := d.(state := DhRepliedOk);
      AcceptDhParams(r);
    }

    method ProcessSetClientDhParams(m: Message)
      requires m.SetClientDhParams?
      modifies this
      ensures var x := OnSetClientDhParams(cfg, old(d), m); d == x.dh && sent == old(sent) + x.out
    {
      if m.clientNonce != d.clientNonce || m.serverNonce != d.serverNonce {
        d := d.(state := Failed);
        return;
      }
      var answer := Mid(cfg.crypto.decrypt(d.aes, m.encrypted), 20, 304);
      ProcessClientInnerData(Values(CLIENT_DH_LAYOUT, answer));
    }

    method ProcessClientInnerData(vs: seq<seq<byte>>)
      requires |vs| == 5
      modifies this
      ensures var x := ClientInnerTaken(cfg, old(d), vs); d == x.dh && sent == old(sent) + x.out
    {
      if FromLittle(vs[0]) != CLIENT_DH_INNER || vs[1] != d.clientNonce || vs[2] != d.serverNonce {
        d := d.(state := Failed);
        return;
      }
      d := d.(retryId := FromLittle(vs[3]));
      var newAuthKey := ModExp(vs[4], d.dhPrime, d.secret);
      var expectedHashData := d.newNonce + [1] + cfg.crypto.sha1(newAuthKey)[..8];
      SendPlainPackage(DhGenOk(d.clientNonce, d.serverNonce, cfg.crypto.sha1(expectedHashData)[4..]));
      d := d.(authKey := newAuthKey);
      d := d.(salt := Salt(d.serverNonce, d.newNonce));
      d := d.(state := HasKey);
    }

    /** `processReceivedPacket` of the server. */
    method ServerProcessReceivedPacket(m: Message, r: Random)
      modifies this
      ensures var x := ServerReceived(cfg, old(d), m, r); d == x.dh && sent == old(sent) + x.out
    {
      match m
      case ReqPq(_) => ProcessRequestPq(m, r);
      case ReqDhParams(_, _, _, _, _, _) => ProcessRequestDhParams(m, r);
      case SetClientDhParams(_, _, _) => ProcessSetClientDhParams(m);
      case _ =>
    }

    /** `processReceivedPacket` of the client: the state says which answer is awaited. */
    method ClientProcessReceivedPacket(m: Message, r: Random, rand: nat -> nat) returns (ghost divider: nat)
      modifies this
      ensures DividerOk(m, divider) && (old(d.state) == PqRequested ==> SearchResult(old(d), m, rand, divider))
      ensures var x := ClientReceived(cfg, old(d), m, r.(divider := divider)); d == x.dh && sent == old(sent) + x.out
    {
      divider := 1;
      if m.ResPq? {
        DividesTimes(1, FromBig(m.pq));
      }
      match d.state
      case PqRequested => divider := OnPqAuthorizationAnswer(m, r, rand);
      case DhRequested => OnDhParametersAnswer(m, r);
      case DhGenerationResultRequested => OnDhGenerationResultAnswer(m, r);
      case _ =>
    }
  }
}
