/**
 Both sides of the key exchange against any packets whatsoever, in any order. For the client:
 which three answers lead to a key, and to which one. The handlers check field by field and
 remember what they have seen; the predicates below speak of the three packets themselves.
 */
module AnyPackets {
  import opened Arithmetic
  import opened Bytes
  import opened BigNumbers
  import opened Factoring
  import opened RawStream
  import opened KeyExchange
  import opened KeyExchangeRuns

  /** A packet with the values that are drawn when it is handled. */
  datatype Delivery = Delivery(m: Message, r: Random)

  ghost predicate Drawable(ds: seq<Delivery>) {
    forall x :: x in ds ==> x.r.divider > 0
  }

  function AfterAll(cfg: Config, nonce: Nonce, ds: seq<Delivery>): Dh
    requires Drawable(ds)
  {
    if ds == [] then ClientStarted(FRESH, nonce).dh
    else
      var x := ds[|ds| - 1];
      assert x in ds;
      ClientReceived(cfg, AfterAll(cfg, nonce, ds[..|ds| - 1]), x.m, x.r).dh
  }

  // ---------------------------------------------------------------- the answers

  /** The number of the server, for this client and this server key, and a divider was found. */
  predicate NumberGiven(cfg: Config, nonce: Nonce, x: Delivery) {
    && x.m.ResPq? && x.m.clientNonce == nonce && |x.m.pq| == 8 && FromBig(x.m.pq) >= 2
    && x.m.fingerprints == [cfg.rsa.fingerprint] && x.r.divider != 1
  }

  /** What the client finds in the second packet with the key of both nonces. */
  function PlainText(cfg: Config, x: Delivery, y: Delivery): seq<byte>
    requires x.m.ResPq? && y.m.ServerDhParamsOk?
  {
    cfg.crypto.decrypt(TmpAesKey(cfg.crypto, x.m.serverNonce, x.r.newNonce), y.m.encrypted)
  }

  function Fields(cfg: Config, x: Delivery, y: Delivery): (vs: seq<seq<byte>>)
    requires x.m.ResPq? && y.m.ServerDhParamsOk?
    ensures |vs| == 7
  {
    Values(SERVER_DH_LAYOUT, Mid(PlainText(cfg, x, y), 20, 564))
  }

  /** The parameters of the server, with their hash, kind, both nonces, and in their ranges. */
  predicate ParamsGiven(cfg: Config, nonce: Nonce, x: Delivery, y: Delivery) {
    && x.m.ResPq? && y.m.ServerDhParamsOk? && y.m.clientNonce == nonce && y.m.serverNonce == x.m.serverNonce
    && cfg.crypto.sha1(Mid(PlainText(cfg, x, y), 20, 564)) == Mid(PlainText(cfg, x, y), 0, 20)
    && var vs := Fields(cfg, x, y);
       && FromLittle(vs[0]) == 0xb5890dba && vs[1] == nonce && vs[2] == x.m.serverNonce
       && 2 <= FromLittle(vs[3]) <= 7 && |vs[4]| == 256 && vs[4][0] >= 128
  }

  /** The public value of the server to the power of the secret that the client drew. */
  function KeyGiven(cfg: Config, x: Delivery, y: Delivery): seq<byte>
    requires x.m.ResPq? && y.m.ServerDhParamsOk?
  {
    ModExp(Fields(cfg, x, y)[5], Fields(cfg, x, y)[4], y.r.secret)
  }

  /** One of the three last answers, with the hash of its own number, the new nonce and that key. */
  predicate KeyConfirmed(cfg: Config, nonce: Nonce, x: Delivery, y: Delivery, z: Delivery)
    requires x.m.ResPq? && y.m.ServerDhParamsOk?
  {
    && (z.m.DhGenOk? || z.m.DhGenRetry? || z.m.DhGenFail?)
    && z.m.clientNonce == nonce && z.m.serverNonce == x.m.serverNonce
    && var number := if z.m.DhGenOk? then 1 else if z.m.DhGenRetry? then 2 else 3;
       z.m.hash == AnswerHash(cfg.crypto, number, x.r.newNonce, KeyGiven(cfg, x, y))
  }

  // ---------------------------------------------------------------- one answer after the other

  ghost predicate NonceTaken(nonce: Nonce, x: Delivery, d: Dh) {
    && x.m.ResPq? && d.clientNonce == nonce && d.serverNonce == x.m.serverNonce
    && d.newNonce == x.r.newNonce && d.authKey == [] && d.pq == FromBig(x.m.pq)
  }

  ghost predicate ParamsTaken(cfg: Config, nonce: Nonce, x: Delivery, y: Delivery, d: Dh) {
    && NonceTaken(nonce, x, d) && y.m.ServerDhParamsOk? && d.aes == TmpAesKey(cfg.crypto, d.serverNonce, d.newNonce)
    && d.g == FromLittle(Fields(cfg, x, y)[3]) && d.dhPrime == Fields(cfg, x, y)[4] && d.gA == Fields(cfg, x, y)[5]
    && d.secret == y.r.secret
  }

  /** The key of a confirmation; a refusal draws a new secret and remembers the refused key. */
  ghost predicate KeyTaken(cfg: Config, x: Delivery, y: Delivery, z: Delivery, d: Dh)
    requires x.m.ResPq? && y.m.ServerDhParamsOk?
  {
    var key := KeyGiven(cfg, x, y);
    if z.m.DhGenOk? then d.authKey == key && d.salt == Salt(x.m.serverNonce, x.r.newNonce)
    else
      && d.authKey == [] && d.secret == z.r.secret
      && d.retryId == if key == [] then 0 else FromLittle(cfg.crypto.sha1(key)[..8])
  }

  lemma {:induction false} First(cfg: Config, nonce: Nonce, x: Delivery)
    requires x.r.divider > 0
    ensures var d := ClientReceived(cfg, ClientStarted(FRESH, nonce).dh, x.m, x.r).dh;
            && d.state == (if NumberGiven(cfg, nonce, x) then DhRequested else Failed)
            && (NumberGiven(cfg, nonce, x) ==> NonceTaken(nonce, x, d))
            && (x.m.ResPq? && x.m.clientNonce == nonce ==>
                  d.serverNonce == x.m.serverNonce && d.pq == if |x.m.pq| == 8 then FromBig(x.m.pq) else 0)
  {
  }

  lemma {:induction false} Second(cfg: Config, nonce: Nonce, x: Delivery, y: Delivery, d: Dh)
    requires d.state == DhRequested && NonceTaken(nonce, x, d) && y.r.divider > 0
    ensures var d' := ClientReceived(cfg, d, y.m, y.r).dh;
            d'.state == (if ParamsGiven(cfg, nonce, x, y) then DhGenerationResultRequested else Failed) &&
            (ParamsGiven(cfg, nonce, x, y) ==> ParamsTaken(cfg, nonce, x, y, d'))
  {
  }

  lemma {:induction false} Third(cfg: Config, nonce: Nonce, x: Delivery, y: Delivery, z: Delivery, d: Dh)
    requires d.state == DhGenerationResultRequested && ParamsTaken(cfg, nonce, x, y, d) && z.r.divider > 0
    ensures var d' := ClientReceived(cfg, d, z.m, z.r).dh;
            d'.state == (if KeyConfirmed(cfg, nonce, x, y, z) then HasKey else Failed) &&
            (KeyConfirmed(cfg, nonce, x, y, z) ==> KeyTaken(cfg, x, y, z, d'))
  {
  }

  // ---------------------------------------------------------------- any answers

  /** How far any packets take the client. */
  ghost function Reached(cfg: Config, nonce: Nonce, ds: seq<Delivery>): State {
    if ds == [] then PqRequested
    else if !NumberGiven(cfg, nonce, ds[0]) then Failed
    else if |ds| == 1 then DhRequested
    else if !ParamsGiven(cfg, nonce, ds[0], ds[1]) then Failed
    else if |ds| == 2 then DhGenerationResultRequested
    else if !KeyConfirmed(cfg, nonce, ds[0], ds[1], ds[2]) then Failed
    else HasKey
  }

  ghost predicate Taken(cfg: Config, nonce: Nonce, ds: seq<Delivery>, d: Dh) {
    match d.state
    case DhRequested => |ds| == 1 && NonceTaken(nonce, ds[0], d)
    case DhGenerationResultRequested => |ds| == 2 && ParamsTaken(cfg, nonce, ds[0], ds[1], d)
    case HasKey => |ds| >= 3 && ds[0].m.ResPq? && ds[1].m.ServerDhParamsOk? && KeyTaken(cfg, ds[0], ds[1], ds[2], d)
    case PqRequested => ds == []
    case _ => true
  }

  lemma {:induction false} OneMore(cfg: Config, nonce: Nonce, ds: seq<Delivery>, z: Delivery, d: Dh)
    requires z.r.divider > 0 && d.state == Reached(cfg, nonce, ds) && Taken(cfg, nonce, ds, d)
    requires ds == [] ==> d == ClientStarted(FRESH, nonce).dh
    ensures var d' := ClientReceived(cfg, d, z.m, z.r).dh;
            d'.state == Reached(cfg, nonce, ds + [z]) && Taken(cfg, nonce, ds + [z], d')
  {
    if ds == [] {
      First(cfg, nonce, z);
    } else if d.state == DhRequested {
      Second(cfg, nonce, ds[0], z, d);
    } else if d.state == DhGenerationResultRequested {
      Third(cfg, nonce, ds[0], ds[1], z, d);
    }
  }

  /**
   Whatever packets arrive, in whatever order: the client has a key exactly if the first three
   are the number, the parameters and the confirmation that belong together, and it is the key
   of those parameters and of the drawn secret. Later packets change nothing, and any other
   packet on the way is the end of the exchange.
   */
  lemma {:induction false} AnyAnswers(cfg: Config, nonce: Nonce, ds: seq<Delivery>)
    requires Drawable(ds)
    ensures AfterAll(cfg, nonce, ds).state == Reached(cfg, nonce, ds)
    ensures Taken(cfg, nonce, ds, AfterAll(cfg, nonce, ds))
  {
    if ds != [] {
      var init, x := ds[..|ds| - 1], ds[|ds| - 1];
      assert x in ds && init + [x] == ds;
      AnyAnswers(cfg, nonce, init);
      OneMore(cfg, nonce, init, x, AfterAll(cfg, nonce, init));
    }
  }

  /** A confirmed refusal is answered with the new public value and the number of the refused key. */
  lemma {:induction false} RefusalAnswered(cfg: Config, nonce: Nonce, ds: seq<Delivery>, z: Delivery)
    requires cfg.Valid() && Drawable(ds + [z]) && |ds| == 2 && Drawable(ds)
    requires Reached(cfg, nonce, ds + [z]) == HasKey && !z.m.DhGenOk?
    ensures var x, y := ds[0], ds[1];
            var out := ClientReceived(cfg, AfterAll(cfg, nonce, ds), z.m, z.r).out;
            var k := TmpAesKey(cfg.crypto, x.m.serverNonce, x.r.newNonce);
            var g, prime, key := FromLittle(Fields(cfg, x, y)[3]), Fields(cfg, x, y)[4], KeyGiven(cfg, x, y);
            && |out| == 1 && out[0].SetClientDhParams?
            && out[0].clientNonce == nonce && out[0].serverNonce == x.m.serverNonce
            && Values(CLIENT_DH_LAYOUT, Mid(cfg.crypto.decrypt(k, out[0].encrypted), 20, 304)) ==
                 [Little(CLIENT_DH_INNER, 4), nonce, x.m.serverNonce,
                  Little(if key == [] then 0 else FromLittle(cfg.crypto.sha1(key)[..8]), 8),
                  ModExp(Big(g, 4), prime, z.r.secret)]
  {
    assert z in ds + [z];
    AnyAnswers(cfg, nonce, ds);
    assert (ds + [z])[0] == ds[0] && (ds + [z])[1] == ds[1];
    var d := AfterAll(cfg, nonce, ds);
    var d1 := d.(retryId := RetryIdOf(cfg.crypto, KeyGiven(cfg, ds[0], ds[1])), secret := z.r.secret);
    ClientAnswerRead(cfg, d1, z.r.noise);
  }

  // ---------------------------------------------------------------- the server

  /** The inner data of a request, as the server opens it. */
  function InnerOf(cfg: Config, m: Message): (vs: seq<seq<byte>>)
    requires m.ReqDhParams?
    ensures |vs| == 7
  {
    Values(PQ_LAYOUT, Mid(Opened(cfg.rsa, m.encrypted), 20, 255))
  }

  /** For the nonces and factors of this exchange and for this key. */
  predicate OutsideRight(cfg: Config, d: Dh, m: Message)
    requires m.ReqDhParams?
  {
    && m.clientNonce == d.clientNonce && m.serverNonce == d.serverNonce && m.fingerprint == cfg.rsa.fingerprint
    && FromBig(Mid(m.p, 0, 4)) == d.p && FromBig(Mid(m.q, 0, 4)) == d.q
  }

  /** The encrypted block holds the number and `n` more fields in their sizes. */
  predicate InsideGood(cfg: Config, m: Message, n: nat)
    requires m.ReqDhParams?
  {
    var vs := InnerOf(cfg, m);
    && FromLittle(vs[0]) == 0x83c95aec && |vs[1]| == 8 && (n >= 1 ==> |vs[2]| == 4) && (n >= 2 ==> |vs[3]| == 4)
  }

  /** Right outside, and inside the encrypted block too. */
  predicate RequestRight(cfg: Config, d: Dh, m: Message)
    requires m.ReqDhParams?
  {
    && OutsideRight(cfg, d, m) && InsideGood(cfg, m, 2)
    && InnerOf(cfg, m)[4] == d.clientNonce && InnerOf(cfg, m)[5] == d.serverNonce && |InnerOf(cfg, m)[6]| == 32
  }

  /** The fields that were read before the first wrong one are stored, the others stay. */
  predicate InsideStored(cfg: Config, d: Dh, m: Message, d': Dh)
    requires m.ReqDhParams?
  {
    var vs := InnerOf(cfg, m);
    && d'.pq == (if OutsideRight(cfg, d, m) && InsideGood(cfg, m, 0) then FromBig(vs[1]) else d.pq)
    && d'.p == (if OutsideRight(cfg, d, m) && InsideGood(cfg, m, 1) then FromBig(vs[2]) else d.p)
    && d'.q == (if OutsideRight(cfg, d, m) && InsideGood(cfg, m, 2) then FromBig(vs[3]) else d.q)
  }

  /** For this exchange, also inside the data that was sealed with the temporary key. */
  predicate PublicValueRight(cfg: Config, d: Dh, m: Message)
    requires m.SetClientDhParams?
  {
    && m.clientNonce == d.clientNonce && m.serverNonce == d.serverNonce
    && var vs := Values(CLIENT_DH_LAYOUT, Mid(cfg.crypto.decrypt(d.aes, m.encrypted), 20, 304));
       FromLittle(vs[0]) == 0x6643b654 && vs[1] == d.clientNonce && vs[2] == d.serverNonce
  }

  /** What one packet does to the server, in any state. */
  lemma {:induction false} AnyRequest(cfg: Config, d: Dh, m: Message, r: Random)
    ensures var x := ServerReceived(cfg, d, m, r);
            match m
            case ReqPq(nonce) =>
              x.dh.state == PqReplied && x.dh.clientNonce == nonce && x.dh.serverNonce == r.nonce && |x.out| == 1
            case ReqDhParams(_, _, _, _, _, _) =>
              InsideStored(cfg, d, m, x.dh) &&
              if RequestRight(cfg, d, m) then
                && x.dh.state == DhRepliedOk && Chosen(cfg, x.dh) && |x.out| == 1
                && x.dh.newNonce == InnerOf(cfg, m)[6] && x.dh.secret == r.secret && Agreed(x.dh, d)
              else x.dh.state == Failed && x.out == [] && Agreed(x.dh, d)
            case SetClientDhParams(_, _, _) =>
              if PublicValueRight(cfg, d, m) then
                var value := Values(CLIENT_DH_LAYOUT, Mid(cfg.crypto.decrypt(d.aes, m.encrypted), 20, 304))[4];
                && x.dh.state == HasKey && x.dh.authKey == ModExp(value, d.dhPrime, d.secret)
                && x.dh.salt == Salt(d.serverNonce, d.newNonce)
                && x.out == [DhGenOk(d.clientNonce, d.serverNonce,
                  AnswerHash(cfg.crypto, 1, d.newNonce, x.dh.authKey))]
              else x == Reaction(d.(state := Failed), [])
            case _ => x == Reaction(d, [])
  {
  }

  function ServerAfterAll(cfg: Config, d: Dh, ds: seq<Delivery>): Dh {
    if ds == [] then d
    else
      var x := ds[|ds| - 1];
      ServerReceived(cfg, ServerAfterAll(cfg, d, ds[..|ds| - 1]), x.m, x.r).dh
  }

  /** Whatever packets arrive: a server that has answered with parameters has chosen all of them itself. */
  lemma {:induction false} AnyRequests(cfg: Config, p: nat, q: nat, ds: seq<Delivery>)
    ensures var d := ServerAfterAll(cfg, FreshServer(p, q), ds);
            && d.state in {Idle, PqReplied, DhRepliedOk, Failed, HasKey}
            && (d.state == DhRepliedOk ==> Chosen(cfg, d))
            && (d.state == HasKey ==> d.salt == Salt(d.serverNonce, d.newNonce))
  {
    if ds != [] {
      var init, x := ds[..|ds| - 1], ds[|ds| - 1];
      AnyRequests(cfg, p, q, init);
      AnyRequest(cfg, ServerAfterAll(cfg, FreshServer(p, q), init), x.m, x.r);
    }
  }

  // ---------------------------------------------------------------- the confirming hash

  /**
   The hash of an answer binds its number, the nonce and the key: equal hashes for different
   ones are a collision of the last 16 bytes of SHA-1.
   */
  lemma {:induction false} AnswerHashBinds(
    c: Crypto, number: byte, nonce: LongNonce, key: seq<byte>, number': byte, nonce': LongNonce, key': seq<byte>)
    requires AnswerHash(c, number, nonce, key) == AnswerHash(c, number', nonce', key')
    ensures |AnswerHash(c, number, nonce, key)| == 16
    ensures (number == number' && nonce == nonce' && c.sha1(key)[..8] == c.sha1(key')[..8]) ||
            exists x, y :: x != y && c.sha1(x)[4..] == c.sha1(y)[4..]
  {
    var x, y := nonce + [number] + c.sha1(key)[..8], nonce' + [number'] + c.sha1(key')[..8];
    assert c.sha1(x)[4..] == c.sha1(y)[4..];
    if x == y {
      assert x[..32] == nonce && y[..32] == nonce' && x[32] == number && y[32] == number';
      assert x[33..] == c.sha1(key)[..8] && y[33..] == c.sha1(key')[..8];
    }
  }
}
