/** The account file of `FileAccountStorage`: a signature, a format version and the fields of the account. */
module AccountFile {
  import opened Arithmetic
  import opened Options
  import opened Bytes
  import opened RawStream

  const SIGNATURE: seq<byte> := [84, 101, 108, 101, 103, 114, 97, 109, 81, 116, 95, 97, 99, 99, 111, 117, 110, 116]
  const FORMAT_VERSION: nat := 1

  datatype Account = Account(
    deltaTime: int, dcId: nat, address: seq<byte>, port: nat, authKey: seq<byte>,
    authId: nat, sessionId: nat, contentRelated: nat)
  {
    /** The numbers are those of the source's integer types. */
    predicate InRange() {
      && -TWO31 <= deltaTime < TWO31 && dcId < Pow256(4) && port < Pow256(2)
      && authId < Pow256(8) && sessionId < Pow256(8) && contentRelated < Pow256(4)
    }
  }

  const SERVER_LAYOUT: seq<Field> := [Fixed(4), Fixed(4), Array, Fixed(2)]
  const KEY_LAYOUT: seq<Field> := [Array, Fixed(8), Fixed(8), Fixed(4)]

  /** Two's complement in 32 bits. */
  function Unsigned(x: int): nat
    requires -TWO31 <= x < TWO31
  {
    if x >= 0 then x else x + 2 * TWO31
  }

  function Signed(x: nat): int {
    if x < TWO31 then x else x - 2 * TWO31
  }

  function ServerValues(a: Account): (vs: seq<seq<byte>>)
    requires a.InRange()
    ensures |vs| == 4
  {
    [Little(Unsigned(a.deltaTime), 4), Little(a.dcId, 4), a.address, Little(a.port, 2)]
  }

  function KeyValues(a: Account): (vs: seq<seq<byte>>)
    requires a.InRange()
    ensures |vs| == 4
  {
    [a.authKey, Little(a.authId, 8), Little(a.sessionId, 8), Little(a.contentRelated, 4)]
  }

  function AccountOf(server: seq<seq<byte>>, key: seq<seq<byte>>): Account
    requires |server| == |key| == 4
  {
    Account(Signed(FromLittle(server[0])), FromLittle(server[1]), server[2], FromLittle(server[3]),
            key[0], FromLittle(key[1]), FromLittle(key[2]), FromLittle(key[3]))
  }

  function Head(): seq<byte> {
    SIGNATURE + Little(FORMAT_VERSION, 4)
  }

  function Saved(a: Account): seq<byte>
    requires a.InRange()
  {
    Head() + (Encoded(SERVER_LAYOUT, ServerValues(a)) + Encoded(KEY_LAYOUT, KeyValues(a)))
  }

  /** The fields of the account, or nothing if a read failed. */
  function FieldsLoaded(i: Input): Option<Account> {
    var server := Decoded(SERVER_LAYOUT, i);
    var key := Decoded(KEY_LAYOUT, server.input);
    if key.input.error then None else Some(AccountOf(server.values, key.values))
  }

  /** The signature is right and the version, as far as it could be read, is known. */
  predicate HeadAccepted(file: seq<byte>) {
    var signature := TakenBytes(Input(file, false), |SIGNATURE|);
    signature.data == SIGNATURE && FromLittle(Filled(signature.input, Zeros(4)).data) <= FORMAT_VERSION
  }

  /** What `loadData` accepts: the signature, a known version, and fields read without error. */
  function Loaded(file: seq<byte>): Option<Account> {
    var signature := TakenBytes(Input(file, false), |SIGNATURE|);
    if HeadAccepted(file) then FieldsLoaded(Filled(signature.input, Zeros(4)).input) else None
  }

  // ---------------------------------------------------------------- the storage

  class FileAccountStorage {
    var deltaTime: int
    var dcId: nat
    var address: seq<byte>
    var port: nat
    var authKey: seq<byte>
    var authId: nat
    var sessionId: nat
    var contentRelated: nat

    ghost function View(): Account
      reads this
    {
      Account(deltaTime, dcId, address, port, authKey, authId, sessionId, contentRelated)
    }

    constructor (a: Account)
      ensures View() == a
    {
      deltaTime, dcId, address, port := a.deltaTime, a.dcId, a.address, a.port;
      authKey, authId, sessionId, contentRelated := a.authKey, a.authId, a.sessionId, a.contentRelated;
    }

    static method SaveHead(stream: RawStreamEx)
      modifies stream
      ensures stream.Out() == Put(old(stream.Out()), Head())
    {
      PutTwice(stream.Out(), SIGNATURE, Little(FORMAT_VERSION, 4));
      stream.WriteBytes(SIGNATURE);
      stream.WriteBytes(Little(FORMAT_VERSION, 4));
    }

    method SaveServer(stream: RawStreamEx)
      requires View().InRange()
      modifies stream
      ensures stream.Out() == Put(old(stream.Out()), Concat(ServerParts(View())))
    {
      ghost var o0 := stream.Out();
      stream.WriteBytes(Little(Unsigned(deltaTime), 4));
      ghost var o1 := stream.Out();
      stream.WriteBytes(Little(dcId, 4));
      ghost var o2 := stream.Out();
      stream.WriteArray(address);
      ghost var o3 := stream.Out();
      stream.WriteBytes(Little(port, 2));
      FourParts(o0, o1, o2, o3, stream.Out(), ServerParts(View()));
    }

    method SaveKey(stream: RawStreamEx)
      requires View().InRange()
      modifies stream
      ensures stream.Out() == Put(old(stream.Out()), Concat(KeyParts(View())))
    {
      ghost var o0 := stream.Out();
      stream.WriteArray(authKey);
      ghost var o1 := stream.Out();
      stream.WriteBytes(Little(authId, 8));
      ghost var o2 := stream.Out();
      stream.WriteBytes(Little(sessionId, 8));
      ghost var o3 := stream.Out();
      stream.WriteBytes(Little(contentRelated, 4));
      FourParts(o0, o1, o2, o3, stream.Out(), KeyParts(View()));
    }

    /** The result is positive also when the device, which takes `room` bytes, did not take everything. */
    method SaveData(room: nat) returns (ok: bool, file: seq<byte>)
      requires View().InRange()
      ensures ok && file == Saved(View())[..Min(room, |Saved(View())|)]
    {
      var stream := new RawStreamEx([], room);
      ghost var o := stream.Out();
      SaveHead(stream);
      SaveServer(stream);
      SaveKey(stream);
      file := stream.written;
      ok := true;
      SavedParts(View(), o, stream.Out());
    }

    method LoadServer(stream: RawStreamEx) returns (ghost values: seq<seq<byte>>)
      modifies this, stream
      ensures Record(stream.View(), values) == Decoded(SERVER_LAYOUT, old(stream.View()))
      ensures deltaTime == Signed(FromLittle(values[0])) && dcId == FromLittle(values[1])
      ensures address == values[2] && port == FromLittle(values[3])
    {
      DecodedFour(Fixed(4), Fixed(4), Array, Fixed(2), stream.View());
      var v0 := stream.ReadInto(Zeros(4));
      var v1 := stream.ReadInto(Zeros(4));
      var v2 := stream.ReadArray();
      var v3 := stream.ReadInto(Zeros(2));
      deltaTime, dcId, address, port := Signed(FromLittle(v0)), FromLittle(v1), v2, FromLittle(v3);
      values := [v0, v1, v2, v3];
    }

    method LoadKey(stream: RawStreamEx) returns (ghost values: seq<seq<byte>>)
      modifies this`authKey, this`authId, this`sessionId, this`contentRelated, stream
      ensures Record(stream.View(), values) == Decoded(KEY_LAYOUT, old(stream.View()))
      ensures authKey == values[0] && authId == FromLittle(values[1])
      ensures sessionId == FromLittle(values[2]) && contentRelated == FromLittle(values[3])
    {
      DecodedFour(Array, Fixed(8), Fixed(8), Fixed(4), stream.View());
      var v0 := stream.ReadArray();
      var v1 := stream.ReadInto(Zeros(8));
      var v2 := stream.ReadInto(Zeros(8));
      var v3 := stream.ReadInto(Zeros(4));
      authKey, authId, sessionId, contentRelated := v0, FromLittle(v1), FromLittle(v2), FromLittle(v3);
      values := [v0, v1, v2, v3];
    }

    /** A wrong head leaves the fields as they are; then they are overwritten one after the other. */
    method LoadData(file: seq<byte>) returns (ok: bool)
      modifies this
      ensures ok == Loaded(file).Some?
      ensures ok ==> View() == Loaded(file).value
      ensures !HeadAccepted(file) ==> View() == old(View())
    {
      var stream := new RawStreamEx(file, 0);
      var signature := stream.ReadBytes(|SIGNATURE|);
      if signature != SIGNATURE {
        return false;
      }
      var format := stream.ReadInto(Zeros(4));
      if FromLittle(format) > FORMAT_VERSION {
        return false;
      }
      ghost var server := LoadServer(stream);
      ghost var key := LoadKey(stream);
      return !stream.error;
    }
  }

  // ---------------------------------------------------------------- what is written

  function ServerParts(a: Account): seq<seq<byte>>
    requires a.InRange()
  {
    [Little(Unsigned(a.deltaTime), 4), Little(a.dcId, 4), ArrayBytes(a.address), Little(a.port, 2)]
  }

  function KeyParts(a: Account): seq<seq<byte>>
    requires a.InRange()
  {
    [ArrayBytes(a.authKey), Little(a.authId, 8), Little(a.sessionId, 8), Little(a.contentRelated, 4)]
  }

  lemma {:induction false} FourParts(o0: Output, o1: Output, o2: Output, o3: Output, o4: Output, parts: seq<seq<byte>>)
    requires |parts| == 4
    requires o1 == Put(o0, parts[0]) && o2 == Put(o1, parts[1]) && o3 == Put(o2, parts[2]) && o4 == Put(o3, parts[3])
    ensures o4 == Put(o0, Concat(parts))
  {
    ConcatFour(parts);
    PutTwice(o2, parts[2], parts[3]);
    PutTwice(o1, parts[1], parts[2] + parts[3]);
    PutTwice(o0, parts[0], parts[1] + (parts[2] + parts[3]));
  }

  lemma {:induction false} ConcatFour(parts: seq<seq<byte>>)
    requires |parts| == 4
    ensures Concat(parts) == parts[0] + (parts[1] + (parts[2] + parts[3]))
  {
    assert parts[2..][1..] == parts[3..] && parts[1..][1..] == parts[2..];
    assert Concat(parts[3..]) == parts[3] + [];
    assert Concat(parts[2..]) == parts[2] + parts[3];
    assert Concat(parts[1..]) == parts[1] + (parts[2] + parts[3]);
  }

  lemma {:induction false} PartsOfServer(a: Account)
    requires a.InRange()
    ensures Encoded(SERVER_LAYOUT, ServerValues(a)) == Concat(ServerParts(a))
  {
    EncodedIsConcat(SERVER_LAYOUT, ServerValues(a), ServerParts(a));
  }

  lemma {:induction false} PartsOfKey(a: Account)
    requires a.InRange()
    ensures Encoded(KEY_LAYOUT, KeyValues(a)) == Concat(KeyParts(a))
  {
    EncodedIsConcat(KEY_LAYOUT, KeyValues(a), KeyParts(a));
  }

  lemma {:induction false} SavedParts(a: Account, o: Output, o': Output)
    requires a.InRange() && o.written == [] && !o.error
    requires o' == Put(Put(Put(o, Head()), Concat(ServerParts(a))), Concat(KeyParts(a)))
    ensures o'.written == Saved(a)[..Min(o.room, |Saved(a)|)]
  {
    PartsOfServer(a);
    PartsOfKey(a);
    PutTwice(Put(o, Head()), Concat(ServerParts(a)), Concat(KeyParts(a)));
    PutTwice(o, Head(), Concat(ServerParts(a)) + Concat(KeyParts(a)));
    var all := Saved(a)[..Min(o.room, |Saved(a)|)];
    assert [] + all == all;
  }

  // ---------------------------------------------------------------- saved accounts

  lemma {:induction false} ValuesBack(a: Account)
    requires a.InRange()
    ensures AccountOf(ServerValues(a), KeyValues(a)) == a
  {
    LittleRoundTrip(Unsigned(a.deltaTime), 4) by {
      assert Pow256(4) == 2 * TWO31;
    }
    LittleRoundTrip(a.dcId, 4);
    LittleRoundTrip(a.port, 2);
    LittleRoundTrip(a.authId, 8);
    LittleRoundTrip(a.sessionId, 8);
    LittleRoundTrip(a.contentRelated, 4);
  }

  /** Past a good signature and version, loading is reading the fields. */
  lemma {:induction false} LoadedFields(body: seq<byte>)
    ensures Loaded(Head() + body) == FieldsLoaded(Input(body, false))
  {
    var version := Little(FORMAT_VERSION, 4);
    var file := Head() + body;
    assert file == SIGNATURE + (version + body);
    assert file[..|SIGNATURE|] == SIGNATURE && file[|SIGNATURE|..] == version + body;
    FilledExactly(version, body, Zeros(4));
    LittleRoundTrip(FORMAT_VERSION, 4);
  }

  predicate Storable(a: Account) {
    |a.address| < TWO24 && |a.authKey| < TWO24
  }

  lemma {:induction false} FourFit(fs: seq<Field>, vs: seq<seq<byte>>)
    requires |fs| == |vs| == 4
    ensures AllFit(fs, vs) <==> Fits(fs[0], vs[0]) && Fits(fs[1], vs[1]) && Fits(fs[2], vs[2]) && Fits(fs[3], vs[3])
  {
  }

  lemma {:induction false} ServerFits(a: Account)
    requires a.InRange()
    ensures |a.address| < TWO24 <==> AllFit(SERVER_LAYOUT, ServerValues(a))
    ensures forall i :: 0 <= i < 4 && SERVER_LAYOUT[i].Fixed? ==> |ServerValues(a)[i]| == SERVER_LAYOUT[i].size
  {
    FourFit(SERVER_LAYOUT, ServerValues(a));
  }

  lemma {:induction false} KeyFits(a: Account)
    requires a.InRange()
    ensures |a.authKey| < TWO24 <==> AllFit(KEY_LAYOUT, KeyValues(a))
    ensures forall i :: 0 <= i < 4 && KEY_LAYOUT[i].Fixed? ==> |KeyValues(a)[i]| == KEY_LAYOUT[i].size
  {
    FourFit(KEY_LAYOUT, KeyValues(a));
  }

  lemma {:induction false} FieldsRestored(a: Account, rest: seq<byte>)
    requires a.InRange() && Storable(a)
    ensures FieldsLoaded(Input(Encoded(SERVER_LAYOUT, ServerValues(a)) + (Encoded(KEY_LAYOUT, KeyValues(a)) + rest),
            false)) == Some(a)
  {
    ServerFits(a);
    KeyFits(a);
    RecordRoundTrip(SERVER_LAYOUT, ServerValues(a), Encoded(KEY_LAYOUT, KeyValues(a)) + rest);
    RecordRoundTrip(KEY_LAYOUT, KeyValues(a), rest);
    ValuesBack(a);
  }

  /** Every field is restored, whatever follows in the file. */
  lemma {:induction false} LoadRestores(a: Account, rest: seq<byte>)
    requires a.InRange() && Storable(a)
    ensures Loaded(Saved(a) + rest) == Some(a)
  {
    var server, key := Encoded(SERVER_LAYOUT, ServerValues(a)), Encoded(KEY_LAYOUT, KeyValues(a));
    Associative(Head(), server + key, rest);
    Associative(server, key, rest);
    LoadedFields(server + (key + rest));
    FieldsRestored(a, rest);
  }

  lemma {:induction false} AddressChanged(a: Account, rest: seq<byte>)
    requires a.InRange() && |a.address| >= TWO24
    ensures FieldsLoaded(Input(Encoded(SERVER_LAYOUT, ServerValues(a)) + rest, false)) != Some(a)
  {
    ServerFits(a);
    var j := RecordChanged(SERVER_LAYOUT, ServerValues(a), rest);
    assert j == 2;
  }

  lemma {:induction false} KeyChanged(a: Account)
    requires a.InRange() && |a.address| < TWO24 && |a.authKey| >= TWO24
    ensures FieldsLoaded(Input(Encoded(SERVER_LAYOUT, ServerValues(a)) + Encoded(KEY_LAYOUT, KeyValues(a)), false)) !=
            Some(a)
  {
    ServerFits(a);
    KeyFits(a);
    var key := Encoded(KEY_LAYOUT, KeyValues(a));
    RecordRoundTrip(SERVER_LAYOUT, ServerValues(a), key);
    var j := RecordChanged(KEY_LAYOUT, KeyValues(a), []);
    assert j == 0 && key + [] == key;
  }

  /** A saved account is restored if and only if its byte strings are shorter than 2^24. */
  lemma {:induction false} LoadRestoresIff(a: Account)
    requires a.InRange()
    ensures Loaded(Saved(a)) == Some(a) <==> Storable(a)
  {
    var server, key := Encoded(SERVER_LAYOUT, ServerValues(a)), Encoded(KEY_LAYOUT, KeyValues(a));
    LoadedFields(server + key);
    if Storable(a) {
      FieldsRestored(a, []);
      assert key + [] == key;
    } else if |a.address| >= TWO24 {
      AddressChanged(a, key);
    } else {
      KeyChanged(a);
    }
  }

  // ---------------------------------------------------------------- cut files

  lemma {:induction false} CutHead(t: seq<byte>)
    requires t <= Head() && |t| < |Head()|
    ensures Loaded(t) == None
  {
    if |t| >= |SIGNATURE| {
      PrefixOfConcat(SIGNATURE, Little(FORMAT_VERSION, 4), t);
      assert t[..|SIGNATURE|] == SIGNATURE;
      FailedFields(Filled(Input(t[|SIGNATURE|..], false), Zeros(4)).input) by {
        FilledShort(t[|SIGNATURE|..], Zeros(4));
      }
    }
  }

  lemma {:induction false} FailedFields(i: Input)
    requires i.error
    ensures FieldsLoaded(i) == None
  {
    RecordSticky(SERVER_LAYOUT, i);
    RecordSticky(KEY_LAYOUT, Decoded(SERVER_LAYOUT, i).input);
  }

  lemma {:induction false} CutFields(a: Account, t: seq<byte>)
    requires a.InRange() && Storable(a)
    requires var body := Encoded(SERVER_LAYOUT, ServerValues(a)) + Encoded(KEY_LAYOUT, KeyValues(a));
             t <= body && |t| < |body|
    ensures FieldsLoaded(Input(t, false)) == None
  {
    var server, key := Encoded(SERVER_LAYOUT, ServerValues(a)), Encoded(KEY_LAYOUT, KeyValues(a));
    ServerFits(a);
    KeyFits(a);
    PrefixOfConcat(server, key, t);
    if |t| < |server| {
      CutRecordRejected(SERVER_LAYOUT, ServerValues(a), t);
      RecordSticky(KEY_LAYOUT, Decoded(SERVER_LAYOUT, Input(t, false)).input);
    } else {
      RecordRoundTrip(SERVER_LAYOUT, ServerValues(a), t[|server|..]);
      CutRecordRejected(KEY_LAYOUT, KeyValues(a), t[|server|..]);
    }
  }

  /** A file that was cut anywhere is rejected. */
  lemma {:induction false} CutFileRejected(a: Account, t: seq<byte>)
    requires a.InRange() && Storable(a) && t <= Saved(a) && |t| < |Saved(a)|
    ensures Loaded(t) == None
  {
    var body := Encoded(SERVER_LAYOUT, ServerValues(a)) + Encoded(KEY_LAYOUT, KeyValues(a));
    PrefixOfConcat(Head(), body, t);
    if |t| < |Head()| {
      CutHead(t);
    } else {
      CutFields(a, t[|Head()|..]);
      LoadedFields(t[|Head()|..]);
    }
  }

  /** What `saveData` left on a device that was full is reported as saved, but never loaded. */
  lemma {:induction false} FullDeviceLosesAccount(a: Account, room: nat)
    requires a.InRange() && Storable(a)
    ensures var file := Saved(a)[..Min(room, |Saved(a)|)];
            Loaded(file) == (if room >= |Saved(a)| then Some(a) else None)
  {
    if room >= |Saved(a)| {
      assert Saved(a)[..|Saved(a)|] == Saved(a);
      LoadRestoresIff(a);
    } else {
      CutFileRejected(a, Saved(a)[..room]);
    }
  }

  // ---------------------------------------------------------------- the form of the file

  lemma {:induction false} ConcatOne(a: seq<byte>, rest: seq<seq<byte>>)
    ensures Concat([a] + rest) == a + Concat(rest)
  {
    assert ([a] + rest)[1..] == rest;
  }

  lemma {:induction false} ConcatTwo(a: seq<byte>, b: seq<byte>, rest: seq<seq<byte>>)
    ensures Concat([a, b] + rest) == a + b + Concat(rest)
  {
    assert [a, b] + rest == [a] + ([b] + rest);
    ConcatOne(a, [b] + rest);
    ConcatOne(b, rest);
    Associative(a, b, Concat(rest));
  }

  lemma {:induction false} TenParts(a: seq<byte>, b: seq<byte>, s: seq<seq<byte>>, k: seq<seq<byte>>)
    requires |s| == |k| == 4
    ensures [a, b] + (s + k) == [a, b, s[0], s[1], s[2], s[3], k[0], k[1], k[2], k[3]]
  {
  }

  /** The file byte by byte: the signature, the version one, and the fields, all numbers lowest byte first. */
  lemma {:induction false} SavedForm(a: Account)
    requires a.InRange()
    ensures Saved(a) ==
            Concat([SIGNATURE, [1, 0, 0, 0],
                    Little(Unsigned(a.deltaTime), 4), Little(a.dcId, 4), ArrayBytes(a.address), Little(a.port, 2),
                    ArrayBytes(a.authKey), Little(a.authId, 8), Little(a.sessionId, 8), Little(a.contentRelated, 4)])
  {
    PartsOfServer(a);
    PartsOfKey(a);
    ConcatSplit(ServerParts(a), KeyParts(a));
    ConcatTwo(SIGNATURE, [1, 0, 0, 0], ServerParts(a) + KeyParts(a));
    VersionBytes();
    TenParts(SIGNATURE, [1, 0, 0, 0], ServerParts(a), KeyParts(a));
  }

  lemma {:induction false} VersionBytes()
    ensures Little(FORMAT_VERSION, 4) == [1, 0, 0, 0]
  {
  }

  lemma {:induction false} ConcatSplit(a: seq<seq<byte>>, b: seq<seq<byte>>)
    ensures Concat(a + b) == Concat(a) + Concat(b)
  {
    if a == [] {
      assert a + b == b;
    } else {
      assert (a + b)[1..] == a[1..] + b;
      ConcatSplit(a[1..], b);
    }
  }

  /** A file is only accepted with the right signature and with a version up to the known one. */
  lemma {:induction false} AcceptedHead(file: seq<byte>)
    requires Loaded(file).Some?
    ensures |file| >= |SIGNATURE| + 4 && file[..|SIGNATURE|] == SIGNATURE
    ensures FromLittle(file[|SIGNATURE|..|SIGNATURE| + 4]) <= FORMAT_VERSION
  {
    var signature := TakenBytes(Input(file, false), |SIGNATURE|);
    var format := Filled(signature.input, Zeros(4));
    if format.input.error {
      FailedFields(format.input);
    }
    assert |file| >= |SIGNATURE|;
    assert !signature.input.error && signature.input.rest == file[|SIGNATURE|..];
    assert format.data == file[|SIGNATURE|..][..4] + Zeros(4)[4..];
    assert format.data == file[|SIGNATURE|..|SIGNATURE| + 4];
  }
}
