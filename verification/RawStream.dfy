/**
 `RawStream` and `RawStreamEx`: reads and writes with an error flag that stays set, the
 byte arrays of the TL language, and records made of such fields.
 */
module RawStream {
  import opened Arithmetic
  import opened Bytes

  /** What is left to read, and whether a read has failed. */
  datatype Input = Input(rest: seq<byte>, error: bool)

  datatype Taken = Taken(input: Input, data: seq<byte>)

  /** `read`: fills a buffer, as far as there is data; nothing is read after an error. */
  function Filled(i: Input, buffer: seq<byte>): (t: Taken)
    ensures |t.data| == |buffer|
  {
    if buffer == [] || i.error then Taken(i, buffer)
    else
      var k := Min(|buffer|, |i.rest|);
      Taken(Input(i.rest[k..], k < |buffer|), i.rest[..k] + buffer[k..])
  }

  /** `readBytes`: moves on even after an error. */
  function TakenBytes(i: Input, n: nat): Taken {
    var k := Min(n, |i.rest|);
    Taken(Input(i.rest[k..], i.error || k < n), i.rest[..k])
  }

  /** What was written to a device that takes `room` more bytes, and whether a write has failed. */
  datatype Output = Output(written: seq<byte>, room: nat, error: bool)

  /** `write`: nothing is written after an error; too little room is an error. */
  function Put(o: Output, data: seq<byte>): Output {
    if o.error then o
    else
      var k := Min(|data|, o.room);
      Output(o.written + data[..k], o.room - k, k < |data|)
  }

  /** Writing in two parts is writing the whole. */
  lemma {:induction false} PutTwice(o: Output, a: seq<byte>, b: seq<byte>)
    ensures Put(Put(o, a), b) == Put(o, a + b)
  {
    if !o.error {
      var k := Min(|a + b|, o.room);
      if |a| <= o.room {
        assert a[..|a|] == a && (a + b)[..k] == a + b[..k - |a|];
        Associative(o.written, a, b[..k - |a|]);
      } else {
        assert (a + b)[..k] == a[..k];
      }
    }
  }

  // ---------------------------------------------------------------- byte arrays

  function PackedSize(length: nat): nat {
    if length < 0xfe then 1 else 4
  }

  function Padding(length: nat): nat {
    var overhung := (length + PackedSize(length)) % 4;
    if overhung != 0 then 4 - overhung else 0
  }

  /** The length in one byte, or `0xfe` and the low three bytes of it. */
  function LengthBytes(length: nat): seq<byte> {
    if length < 0xfe then [length] else Little((length * 256 + 0xfe) % TWO32, 4)
  }

  function ArrayBytes(data: seq<byte>): seq<byte> {
    LengthBytes(|data|) + data + Zeros(Padding(|data|))
  }

  datatype Length = Length(input: Input, value: nat)

  function LengthRead(i: Input): Length {
    var first := Filled(i, [0]);
    var b := first.data[0];
    if b == 0xfe then
      var more := Filled(first.input, [0xfe, 0, 0]);
      Length(more.input, FromLittle(more.data))
    else if b == 0xff then Length(first.input.(error := true), b)
    else Length(first.input, b)
  }

  /** The bytes of the announced length and the padding after them. */
  function BodyRead(i: Input, length: nat): Taken {
    var t := Filled(i, Zeros(length));
    Taken(TakenBytes(t.input, Padding(length)).input, t.data)
  }

  function ArrayRead(i: Input): Taken {
    BodyRead(LengthRead(i).input, LengthRead(i).value)
  }

  // ---------------------------------------------------------------- the stream

  /** A stream over a device: `unread` is read from, `written` is appended to while there is `room`. */
  class RawStreamEx {
    var unread: seq<byte>
    var written: seq<byte>
    var room: nat
    var error: bool

    ghost function View(): Input
      reads this
    {
      Input(unread, error)
    }

    ghost function Out(): Output
      reads this
    {
      Output(written, room, error)
    }

    constructor (data: seq<byte>, room: nat)
      ensures View() == Input(data, false) && Out() == Output([], room, false)
    {
      unread, written, this.room, error := data, [], room, false;
    }

    method ReadInto(buffer: seq<byte>) returns (data: seq<byte>)
      modifies this`unread, this`error
      ensures Taken(View(), data) == Filled(old(View()), buffer)
    {
      data := buffer;
      if |buffer| != 0 && !error {
        var count := Min(|buffer|, |unread|);
        data := unread[..count] + buffer[count..];
        unread := unread[count..];
        error := count != |buffer|;
      }
    }

    method ReadBytes(count: nat) returns (data: seq<byte>)
      modifies this`unread, this`error
      ensures Taken(View(), data) == TakenBytes(old(View()), count)
    {
      var k := Min(count, |unread|);
      data := unread[..k];
      unread := unread[k..];
      error := error || |data| != count;
    }

    method ReadLength() returns (length: nat)
      modifies this`unread, this`error
      ensures Length(View(), length) == LengthRead(old(View()))
    {
      var first := ReadInto([0]);
      length := first[0];
      if length == 0xfe {
        var more := ReadInto([0xfe, 0, 0]);
        length := FromLittle(more);
      } else if length > 0xfe {
        error := true;
      }
    }

    method ReadArray() returns (data: seq<byte>)
      modifies this`unread, this`error
      ensures Taken(View(), data) == ArrayRead(old(View()))
    {
      var length := ReadLength();
      data := ReadInto(Zeros(length));
      var padding := ReadBytes(Padding(length));
    }

    method WriteBytes(data: seq<byte>)
      modifies this`written, this`room, this`error
      ensures Out() == Put(old(Out()), data)
    {
      if !error {
        var count := Min(|data|, room);
        written := written + data[..count];
        room := room - count;
        error := count != |data|;
      }
    }

    method WriteArray(data: seq<byte>)
      modifies this`written, this`room, this`error
      ensures Out() == Put(old(Out()), ArrayBytes(data))
    {
      ghost var head, zeros := LengthBytes(|data|), Zeros(Padding(|data|));
      PutTwice(Out(), head, data);
      PutTwice(Out(), head + data, zeros);
      if PackedSize(|data|) == 1 {
        WriteBytes([|data|]);
      } else {
        WriteBytes(Little((|data| * 256 + 0xfe) % TWO32, 4));
      }
      WriteBytes(data);
      WriteBytes(Zeros(Padding(|data|)));
    }
  }

  // ---------------------------------------------------------------- one array

  /** The long form is the marker and the three low bytes of the length. */
  lemma {:induction false} LongLength(length: nat)
    requires length >= 0xfe
    ensures var s := LengthBytes(length);
            |s| == 4 && s[0] == 0xfe && FromLittle(s[1..]) == length % TWO24
  {
    var q, r := length / TWO24, length % TWO24;
    assert length * 256 + 0xfe == q * TWO32 + (r * 256 + 0xfe);
    Div(TWO32, q, r * 256 + 0xfe);
    Div(256, r, 0xfe);
    assert LengthBytes(length) == [0xfe] + Little(r, 3);
    LittleRoundTrip(r, 3) by {
      assert Pow256(3) == TWO24;
    }
  }

  lemma {:induction false} FilledExactly(data: seq<byte>, rest: seq<byte>, buffer: seq<byte>)
    requires |buffer| == |data|
    ensures Filled(Input(data + rest, false), buffer) == Taken(Input(rest, false), data)
  {
    assert (data + rest)[..|data|] == data && (data + rest)[|data|..] == rest;
    assert data + buffer[|data|..] == data;
  }

  lemma {:induction false} LengthReadBack(length: nat, rest: seq<byte>)
    ensures LengthRead(Input(LengthBytes(length) + rest, false)) ==
            Length(Input(rest, false), if length < 0xfe then length else length % TWO24)
  {
    var s := LengthBytes(length);
    if length < 0xfe {
      FilledExactly(s, rest, [0]);
    } else {
      LongLength(length);
      assert s + rest == [0xfe] + (s[1..] + rest);
      FilledExactly([0xfe], s[1..] + rest, [0]);
      FilledExactly(s[1..], rest, [0xfe, 0, 0]);
    }
  }

  lemma {:induction false} ShortLengthReadBack(length: nat, rest: seq<byte>)
    requires length < TWO24
    ensures LengthRead(Input(LengthBytes(length) + rest, false)) == Length(Input(rest, false), length)
  {
    LengthReadBack(length, rest);
  }

  /** Reading an array whose length bytes announce what follows. */
  lemma {:induction false} ArrayReadAfter(s: seq<byte>, head: seq<byte>, length: nat, tail: seq<byte>)
    requires s == head + tail
    requires LengthRead(Input(head + tail, false)) == Length(Input(tail, false), length)
    ensures ArrayRead(Input(s, false)) == BodyRead(Input(tail, false), length)
  {
  }

  lemma {:induction false} BodyReadBack(data: seq<byte>, zeros: seq<byte>, rest: seq<byte>)
    requires |zeros| == Padding(|data|)
    ensures BodyRead(Input(data + (zeros + rest), false), |data|) == Taken(Input(rest, false), data)
  {
    FilledExactly(data, zeros + rest, Zeros(|data|));
    assert (zeros + rest)[|zeros|..] == rest;
  }

  lemma {:induction false} ArrayParts(data: seq<byte>, rest: seq<byte>)
    ensures ArrayBytes(data) + rest == LengthBytes(|data|) + (data + (Zeros(Padding(|data|)) + rest))
  {
    var l, z := LengthBytes(|data|), Zeros(Padding(|data|));
    assert l + data + z + rest == l + (data + (z + rest));
  }

  lemma {:induction false} ArrayReadBack(data: seq<byte>, rest: seq<byte>)
    requires |data| < TWO24
    ensures ArrayRead(Input(ArrayBytes(data) + rest, false)) == Taken(Input(rest, false), data)
  {
    var zeros := Zeros(Padding(|data|));
    ArrayParts(data, rest);
    ShortLengthReadBack(|data|, data + (zeros + rest));
    ArrayReadAfter(ArrayBytes(data) + rest, LengthBytes(|data|), |data|, data + (zeros + rest));
    BodyReadBack(data, zeros, rest);
  }

  /** A byte array comes back from the stream if and only if its length fits into three bytes. */
  lemma {:induction false} ArrayReadBackIff(data: seq<byte>, rest: seq<byte>)
    ensures ArrayRead(Input(ArrayBytes(data) + rest, false)).data == data <==> |data| < TWO24
  {
    if |data| < TWO24 {
      ArrayReadBack(data, rest);
    } else {
      var tail := data + (Zeros(Padding(|data|)) + rest);
      ArrayParts(data, rest);
      LengthReadBack(|data|, tail);
      assert |ArrayRead(Input(ArrayBytes(data) + rest, false)).data| == |data| % TWO24;
    }
  }

  lemma {:induction false} ThreeBytes(s: seq<byte>)
    requires |s| == 3
    ensures FromLittle(s) == (s[0] as int) + 256 * (s[1] as int) + 65536 * (s[2] as int)
  {
    assert s[1..][1..] == s[2..] && s[2..][1..] == [];
    assert FromLittle(s[2..]) == s[2] && FromLittle(s[1..]) == s[1] + 256 * FromLittle(s[2..]);
  }

  /** The form on the wire: the length in one byte, or 254 and three bytes, lowest first; zeros up to four bytes. */
  lemma {:induction false} ArrayForm(data: seq<byte>)
    requires |data| < TWO24
    ensures var s := ArrayBytes(data);
            var head := if |data| < 254 then 1 else 4;
            && head + |data| <= |s| < head + |data| + 4 && |s| % 4 == 0
            && s[head..head + |data|] == data
            && (forall i :: head + |data| <= i < |s| ==> s[i] == 0)
            && if head == 1 then s[0] == |data|
               else s[0] == 254 && (s[1] as int) + 256 * (s[2] as int) + 65536 * (s[3] as int) == |data|
  {
    ArrayAligned(data);
    if |data| >= 254 {
      LongLength(|data|);
      Div(TWO24, 0, |data|);
      ThreeBytes(LengthBytes(|data|)[1..]);
    }
  }

  lemma {:induction false} ArrayAligned(data: seq<byte>)
    ensures |ArrayBytes(data)| % 4 == 0 && |ArrayBytes(data)| == |data| + PackedSize(|data|) + Padding(|data|)
  {
  }

  // ---------------------------------------------------------------- any bytes

  /** A buffer that cannot be filled keeps its end. */
  lemma {:induction false} FilledAt(rest: seq<byte>, buffer: seq<byte>, k: nat)
    requires k < |buffer|
    ensures Filled(Input(rest, false), buffer).data[k] == if k < |rest| then rest[k] else buffer[k]
  {
  }

  /** The length, and where the data starts. */
  lemma {:induction false} AnyLength(s: seq<byte>)
    ensures var l := LengthRead(Input(s, false));
            if s == [] then l.input.error && l.value == 0
            else if s[0] < 254 then l == Length(Input(s[1..], false), s[0])
            else if s[0] == 255 || |s| < 4 then l.input.error
            else l == Length(Input(s[4..], false), FromLittle(s[1..4]))
  {
    if s != [] && s[0] == 254 && |s| >= 4 {
      assert s[1..][..3] == s[1..4] && s[1..][3..] == s[4..];
      assert Filled(Input(s[1..], false), [0xfe, 0, 0]).data == s[1..4];
    }
  }

  lemma {:induction false} AnyBody(s: seq<byte>, length: nat)
    ensures var t := BodyRead(Input(s, false), length);
            && (t.input.error <==> |s| < length + Padding(length))
            && (!t.input.error ==> t.data == s[..length] && t.input.rest == s[length + Padding(length)..])
  {
  }

  /** How many bytes the length takes, and the announced length. */
  function Announced(s: seq<byte>): (nat, nat)
    requires s != [] && s[0] != 255 && (s[0] == 254 ==> |s| >= 4)
  {
    if s[0] < 254 then (1, s[0]) else (4, FromLittle(s[1..4]))
  }

  /** Nothing, a mark of 255 or a cut length is an error. */
  lemma {:induction false} NoLength(s: seq<byte>)
    requires s == [] || s[0] == 255 || (s[0] == 254 && |s| < 4)
    ensures ArrayRead(Input(s, false)).input.error
  {
    AnyLength(s);
    ArrayReadFailed(Input(s, false));
  }

  /**
   What any other bytes are read as: with too few of them an error, else the data of the
   announced length, and the padding up to the next word is skipped.
   */
  lemma {:induction false} AnyArray(s: seq<byte>, head: nat, length: nat)
    requires s != [] && s[0] != 255 && (s[0] == 254 ==> |s| >= 4) && (head, length) == Announced(s)
    ensures var t, body, n := ArrayRead(Input(s, false)), s[head..], length + Padding(length);
            && (t.input.error <==> |body| < n)
            && (|body| >= n ==> t == Taken(Input(body[n..], false), body[..length]))
  {
    AnyLength(s);
    AnyBody(s[head..], length);
  }

  // ---------------------------------------------------------------- cut arrays

  lemma {:induction false} FilledShort(rest: seq<byte>, buffer: seq<byte>)
    requires |rest| < |buffer|
    ensures Filled(Input(rest, false), buffer).input.error
  {
  }

  /** An error once set stays set. */
  lemma {:induction false} ArrayReadFailed(i: Input)
    requires LengthRead(i).input.error
    ensures ArrayRead(i).input.error
  {
  }

  lemma {:induction false} ArrayReadSticky(i: Input)
    requires i.error
    ensures ArrayRead(i).input.error
  {
  }

  lemma {:induction false} LengthReadShort(length: nat, t: seq<byte>)
    requires t <= LengthBytes(length) && |t| < |LengthBytes(length)|
    ensures LengthRead(Input(t, false)).input.error
  {
    if |t| > 0 {
      LongLength(length);
      assert t == [0xfe] + t[1..];
      FilledExactly([0xfe], t[1..], [0]);
      FilledShort(t[1..], [0xfe, 0, 0]);
    }
  }

  lemma {:induction false} BodyReadShort(data: seq<byte>, t: seq<byte>)
    requires t <= data + Zeros(Padding(|data|)) && |t| < |data| + Padding(|data|)
    ensures BodyRead(Input(t, false), |data|).input.error
  {
    if |t| < |data| {
      FilledShort(t, Zeros(|data|));
    } else {
      assert t == data + t[|data|..];
      FilledExactly(data, t[|data|..], Zeros(|data|));
    }
  }

  lemma {:induction false} PrefixOfConcat(a: seq<byte>, b: seq<byte>, t: seq<byte>)
    requires t <= a + b
    ensures |t| < |a| ==> t <= a
    ensures |t| >= |a| ==> t == a + t[|a|..] && t[|a|..] <= b
  {
    assert t == (a + b)[..|t|];
    if |t| >= |a| {
      assert t[|a|..] == b[..|t| - |a|];
    }
  }

  lemma {:induction false} ArrayReadShort(data: seq<byte>, t: seq<byte>)
    requires |data| < TWO24 && t <= ArrayBytes(data) && |t| < |ArrayBytes(data)|
    ensures ArrayRead(Input(t, false)).input.error
  {
    var head, zeros := LengthBytes(|data|), Zeros(Padding(|data|));
    CutArray(data, head, zeros, t);
    if |t| < |head| {
      LengthReadShort(|data|, t);
      ArrayReadFailed(Input(t, false));
    } else {
      ShortLengthReadBack(|data|, t[|head|..]);
      ArrayReadAfter(t, head, |data|, t[|head|..]);
      BodyReadShort(data, t[|head|..]);
    }
  }

  lemma {:induction false} CutArray(data: seq<byte>, head: seq<byte>, zeros: seq<byte>, t: seq<byte>)
    requires t <= head + data + zeros
    ensures |t| < |head| ==> t <= head
    ensures |t| >= |head| ==> t == head + t[|head|..] && t[|head|..] <= data + zeros
  {
    assert head + data + zeros == head + (data + zeros);
    PrefixOfConcat(head, data + zeros, t);
  }

  // ---------------------------------------------------------------- records

  /** A field of a record: so many bytes as they are, or a byte array. */
  datatype Field = Fixed(size: nat) | Array

  predicate Fits(f: Field, v: seq<byte>) {
    if f.Fixed? then |v| == f.size else |v| < TWO24
  }

  predicate AllFit(fs: seq<Field>, vs: seq<seq<byte>>) {
    |fs| == |vs| && forall i :: 0 <= i < |fs| ==> Fits(fs[i], vs[i])
  }

  function FieldBytes(f: Field, v: seq<byte>): seq<byte> {
    if f.Fixed? then v else ArrayBytes(v)
  }

  function FieldRead(f: Field, i: Input): Taken {
    if f.Fixed? then Filled(i, Zeros(f.size)) else ArrayRead(i)
  }

  function Encoded(fs: seq<Field>, vs: seq<seq<byte>>): seq<byte>
    requires |fs| == |vs|
  {
    if fs == [] then [] else FieldBytes(fs[0], vs[0]) + Encoded(fs[1..], vs[1..])
  }

  datatype Record = Record(input: Input, values: seq<seq<byte>>)

  function Decoded(fs: seq<Field>, i: Input): (r: Record)
    ensures |r.values| == |fs|
  {
    if fs == [] then Record(i, [])
    else
      var first := FieldRead(fs[0], i);
      var others := Decoded(fs[1..], first.input);
      Record(others.input, [first.data] + others.values)
  }

  lemma {:induction false} FieldReadBack(f: Field, v: seq<byte>, rest: seq<byte>)
    requires Fits(f, v)
    ensures FieldRead(f, Input(FieldBytes(f, v) + rest, false)) == Taken(Input(rest, false), v)
  {
    if f.Fixed? {
      FilledExactly(v, rest, Zeros(f.size));
    } else {
      ArrayReadBack(v, rest);
    }
  }

  /** A record is read back from what was written for it, and nothing more is consumed. */
  lemma {:induction false} RecordRoundTrip(fs: seq<Field>, vs: seq<seq<byte>>, rest: seq<byte>)
    requires AllFit(fs, vs)
    ensures Decoded(fs, Input(Encoded(fs, vs) + rest, false)) == Record(Input(rest, false), vs)
  {
    if fs == [] {
      assert Encoded(fs, vs) + rest == rest;
    } else {
      assert Fits(fs[0], vs[0]);
      var tail := Encoded(fs[1..], vs[1..]);
      Associative(FieldBytes(fs[0], vs[0]), tail, rest);
      FieldReadBack(fs[0], vs[0], tail + rest);
      RecordRoundTrip(fs[1..], vs[1..], rest);
      assert [vs[0]] + vs[1..] == vs;
    }
  }

  lemma {:induction false} RecordSticky(fs: seq<Field>, i: Input)
    requires i.error
    ensures Decoded(fs, i).input.error
  {
    if fs != [] {
      if fs[0].Array? {
        ArrayReadSticky(i);
      }
      RecordSticky(fs[1..], FieldRead(fs[0], i).input);
    }
  }

  lemma {:induction false} FieldReadShort(f: Field, v: seq<byte>, t: seq<byte>)
    requires Fits(f, v) && t <= FieldBytes(f, v) && |t| < |FieldBytes(f, v)|
    ensures FieldRead(f, Input(t, false)).input.error
  {
    if f.Fixed? {
      FilledShort(t, Zeros(f.size));
    } else {
      ArrayReadShort(v, t);
    }
  }

  /** Reading any proper prefix of a record ends with the error flag set. */
  lemma {:induction false} CutRecordRejected(fs: seq<Field>, vs: seq<seq<byte>>, t: seq<byte>)
    requires AllFit(fs, vs) && t <= Encoded(fs, vs) && |t| < |Encoded(fs, vs)|
    ensures Decoded(fs, Input(t, false)).input.error
  {
    var head := FieldBytes(fs[0], vs[0]);
    assert Fits(fs[0], vs[0]);
    PrefixOfConcat(head, Encoded(fs[1..], vs[1..]), t);
    if |t| < |head| {
      FieldReadShort(fs[0], vs[0], t);
      RecordSticky(fs[1..], FieldRead(fs[0], Input(t, false)).input);
    } else {
      FieldReadBack(fs[0], vs[0], t[|head|..]);
      CutRecordRejected(fs[1..], vs[1..], t[|head|..]);
    }
  }

  lemma {:induction false} DecodedCons(f: Field, fs: seq<Field>, i: Input)
    ensures var first := FieldRead(f, i);
            var others := Decoded(fs, first.input);
            Decoded([f] + fs, i) == Record(others.input, [first.data] + others.values)
  {
    assert ([f] + fs)[1..] == fs;
  }

  /** A record is the concatenation of what its fields are written as. */
  lemma {:induction false} EncodedIsConcat(fs: seq<Field>, vs: seq<seq<byte>>, parts: seq<seq<byte>>)
    requires |fs| == |vs| == |parts| && forall i :: 0 <= i < |fs| ==> parts[i] == FieldBytes(fs[i], vs[i])
    ensures Encoded(fs, vs) == Concat(parts)
  {
    if fs != [] {
      EncodedIsConcat(fs[1..], vs[1..], parts[1..]);
    }
  }

  lemma {:induction false} DecodedOne(a: Field, i: Input)
    ensures Decoded([a], i) == Record(FieldRead(a, i).input, [FieldRead(a, i).data])
  {
    DecodedCons(a, [], i);
    assert [a] + [] == [a];
  }

  lemma {:induction false} DecodedTwo(a: Field, b: Field, i: Input)
    ensures var t := FieldRead(a, i);
            var u := FieldRead(b, t.input);
            Decoded([a, b], i) == Record(u.input, [t.data, u.data])
  {
    DecodedOne(b, FieldRead(a, i).input);
    DecodedCons(a, [b], i);
    assert [a] + [b] == [a, b];
  }

  lemma {:induction false} DecodedThree(a: Field, b: Field, c: Field, i: Input)
    ensures var t := FieldRead(a, i);
            var u := FieldRead(b, t.input);
            var v := FieldRead(c, u.input);
            Decoded([a, b, c], i) == Record(v.input, [t.data, u.data, v.data])
  {
    DecodedTwo(b, c, FieldRead(a, i).input);
    DecodedCons(a, [b, c], i);
    assert [a] + [b, c] == [a, b, c];
  }

  lemma {:induction false} DecodedFour(a: Field, b: Field, c: Field, d: Field, i: Input)
    ensures var t := FieldRead(a, i);
            var u := FieldRead(b, t.input);
            var v := FieldRead(c, u.input);
            var w := FieldRead(d, v.input);
            Decoded([a, b, c, d], i) == Record(w.input, [t.data, u.data, v.data, w.data])
  {
    DecodedThree(b, c, d, FieldRead(a, i).input);
    DecodedCons(a, [b, c, d], i);
    assert [a] + [b, c, d] == [a, b, c, d];
  }

  lemma {:induction false} FirstChanged(fs: seq<Field>, vs: seq<seq<byte>>, rest: seq<byte>)
    requires |fs| == |vs| > 0 && fs[0].Array? && |vs[0]| >= TWO24
    ensures Decoded(fs, Input(Encoded(fs, vs) + rest, false)).values[0] != vs[0]
  {
    var tail := Encoded(fs[1..], vs[1..]);
    Associative(ArrayBytes(vs[0]), tail, rest);
    ArrayReadBackIff(vs[0], tail + rest);
  }

  lemma {:induction false} OtherChanged(fs: seq<Field>, vs: seq<seq<byte>>, rest: seq<byte>, k: nat)
    requires |fs| == |vs| > 0 && Fits(fs[0], vs[0]) && k < |fs| - 1
    requires Decoded(fs[1..], Input(Encoded(fs[1..], vs[1..]) + rest, false)).values[k] != vs[1..][k]
    ensures Decoded(fs, Input(Encoded(fs, vs) + rest, false)).values[k + 1] != vs[k + 1]
  {
    var tail := Encoded(fs[1..], vs[1..]);
    Associative(FieldBytes(fs[0], vs[0]), tail, rest);
    FieldReadBack(fs[0], vs[0], tail + rest);
    ValueShifted(fs, Input(Encoded(fs, vs) + rest, false), k);
  }

  lemma {:induction false} ValueShifted(fs: seq<Field>, i: Input, k: nat)
    requires fs != [] && k < |fs| - 1
    ensures Decoded(fs, i).values[k + 1] == Decoded(fs[1..], FieldRead(fs[0], i).input).values[k]
  {
  }

  /** If an array does not fit, then some array of the record is read differently. */
  lemma {:induction false} RecordChanged(fs: seq<Field>, vs: seq<seq<byte>>, rest: seq<byte>) returns (j: nat)
    requires |fs| == |vs| && forall i :: 0 <= i < |fs| && fs[i].Fixed? ==> |vs[i]| == fs[i].size
    requires !AllFit(fs, vs)
    ensures j < |fs| && fs[j].Array? && Decoded(fs, Input(Encoded(fs, vs) + rest, false)).values[j] != vs[j]
  {
    if Fits(fs[0], vs[0]) {
      var k := RecordChanged(fs[1..], vs[1..], rest);
      OtherChanged(fs, vs, rest, k);
      j := k + 1;
    } else {
      FirstChanged(fs, vs, rest);
      j := 0;
    }
  }
}
