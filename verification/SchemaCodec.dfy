/**
 The emitted reader and writer as programs over byte streams: what is written for a value
 is read back, for every schema whose flags come before the members that depend on them.
 */
module SchemaCodec {
  import opened Arithmetic
  import opened Bytes
  import opened RawStream
  import opened Options
  import opened Bindings
  import opened Schema
  import opened SchemaFlags

  /** A value of a schema type; an object has a constructor and members by name. */
  datatype Value = Num(n: nat) | Blob(data: seq<byte>) | Object(tag: nat, fields: map<Name, Value>)

  /** What was emitted for a type: the declared members, the constants of the flags, the reader and the writer. */
  datatype TypeCode = TypeCode(fields: seq<Binding<Type>>, enum: seq<Flag>, reader: Switch, writer: Switch)

  type Code = map<Name, TypeCode>

  const NO_CODE: TypeCode := TypeCode([], [], [], [])

  function Of(code: Code, t: Name): TypeCode {
    if t in code then code[t] else NO_CODE
  }

  // ---------------------------------------------------------------- running the code

  predicate BitSet(x: nat, bit: nat) {
    x / Pow2(bit) % 2 == 1
  }

  /** The test before an optional member; a flags member that has no value yet is zero. */
  predicate Passes(enum: seq<Flag>, guard: Guard, fields: map<Name, Value>) {
    match guard
    case Unguarded => true
    case Test(flagMember, flagName) =>
      && flagMember in fields && fields[flagMember].Num?
      && Declares(enum, flagName) && BitSet(fields[flagMember].n, Lookup(enum, flagName).value)
  }

  /** The declared type of a member. */
  function TypeOf(code: Code, t: Name, alias: Name): Option<Type> {
    Lookup(Of(code, t).fields, alias)
  }

  function ReaderOf(code: Code, t: Name, tag: nat): seq<Stmt> {
    BodyOf(Of(code, t).reader, tag)
  }

  function WriterOf(code: Code, t: Name, tag: nat): seq<Stmt> {
    BodyOf(Of(code, t).writer, tag)
  }

  /** The statement runs on an object with these members. */
  predicate Runs(code: Code, t: Name, s: Stmt, fields: map<Name, Value>) {
    Passes(Of(code, t).enum, s.guard, fields)
  }

  /** The statement runs and the member has a value to be written. */
  predicate Present(code: Code, t: Name, s: Stmt, v: Value)
    requires v.Object?
  {
    Runs(code, t, s, v.fields) && s.alias in v.fields && TypeOf(code, t, s.alias).Some?
  }

  function Written(code: Code, typ: Type, v: Value): seq<byte>
    decreases v, 1, 0
  {
    match typ
    case Int => if v.Num? then Little(v.n, 4) else []
    case Long => if v.Num? then Little(v.n, 8) else []
    case Bytes => if v.Blob? then ArrayBytes(v.data) else []
    case Flagged => []
    case Named(t) => if v.Object? then Little(v.tag, 4) + WrittenBody(code, t, WriterOf(code, t, v.tag), v) else []
  }

  function WrittenBody(code: Code, t: Name, body: seq<Stmt>, v: Value): seq<byte>
    requires v.Object?
    decreases v, 0, |body|
  {
    if body == [] then []
    else
      var s := body[0];
      var rest := WrittenBody(code, t, body[1..], v);
      if Present(code, t, s, v) then Written(code, TypeOf(code, t, s.alias).value, v.fields[s.alias]) + rest else rest
  }

  datatype Outcome = Failure | Read(value: Value, rest: seq<byte>)

  function NumberRead(input: seq<byte>, n: nat): Outcome {
    if |input| < n then Failure else Read(Num(FromLittle(input[..n])), input[n..])
  }

  /** `Failure` stands for the error flag of the stream. */
  function ValueRead(code: Code, typ: Type, input: seq<byte>): (r: Outcome)
    ensures r.Read? ==> |r.rest| <= |input|
    decreases |input|, 0, 0
  {
    match typ
    case Int => NumberRead(input, 4)
    case Long => NumberRead(input, 8)
    case Bytes =>
      var t := ArrayRead(Input(input, false));
      if t.input.error || |t.input.rest| > |input| then Failure else Read(Blob(t.data), t.input.rest)
    case Flagged => Failure
    case Named(t) =>
      if |input| < 4 then Failure
      else
        var tag := FromLittle(input[..4]);
        BodyRead(code, t, ReaderOf(code, t, tag), tag, map[], input[4..])
  }

  function BodyRead(
    code: Code, t: Name, body: seq<Stmt>, tag: nat, fields: map<Name, Value>, input: seq<byte>): (r: Outcome)
    ensures r.Read? ==> |r.rest| <= |input|
    decreases |input|, 1, |body|
  {
    if body == [] then Read(Object(tag, fields), input)
    else
      var s := body[0];
      if !Runs(code, t, s, fields) then BodyRead(code, t, body[1..], tag, fields, input)
      else if TypeOf(code, t, s.alias).None? then Failure
      else
        var r := ValueRead(code, TypeOf(code, t, s.alias).value, input);
        if r.Failure? then Failure else BodyRead(code, t, body[1..], tag, fields[s.alias := r.value], r.rest)
  }

  // ---------------------------------------------------------------- schemas and their values

  /** The names differ, and a test is preceded by an unconditional member with the flags. */
  ghost predicate WellFormed(fields: seq<Binding<Type>>, body: seq<Stmt>, flags: set<Name>, used: set<Name>)
    decreases |body|
  {
    body == [] ||
    (var s := body[0];
     && s.alias !in used
     && (s.guard.Test? ==> s.guard.flagMember in flags)
     && WellFormed(fields, body[1..], FlagsAfter(fields, s, flags), used + {s.alias}))
  }

  /** The flags members that are known after a statement. */
  function FlagsAfter(fields: seq<Binding<Type>>, s: Stmt, flags: set<Name>): set<Name> {
    if s.guard.Unguarded? && Lookup(fields, s.alias) == Some(Int) then flags + {s.alias} else flags
  }

  /** The fields that a type declares. */
  function TypeFields(cs: seq<Constructor>): seq<Binding<Type>> {
    Declared(FieldsOf(AllMembers(cs)))
  }

  ghost predicate WellFormedSchema(schema: Schema) {
    forall t, i :: t in schema && 0 <= i < |schema[t]| ==>
      WellFormed(TypeFields(BakedConstructors(schema[t])), Body(BakedConstructors(schema[t])[i].members), {}, {})
  }

  /** What the generator emits for the constructors of a type, after their flags were baked. */
  ghost predicate IsCodeOf(c: TypeCode, cs: seq<Constructor>) {
    && c.fields == TypeFields(cs) && c.enum == Declared(TypeFlags(cs))
    && Implements(c.reader, cs) && Implements(c.writer, cs)
  }

  ghost predicate Generated(code: Code, schema: Schema) {
    forall t :: t in schema ==> t in code && IsCodeOf(code[t], BakedConstructors(schema[t]))
  }

  /** The value has the type, as far as the emitted writer looks at it. */
  ghost predicate HasType(code: Code, schema: Schema, typ: Type, v: Value)
    decreases v, 1, 0
  {
    match typ
    case Int => v.Num? && v.n < Pow256(4)
    case Long => v.Num? && v.n < Pow256(8)
    case Bytes => v.Blob? && |v.data| < TWO24
    case Flagged => false
    case Named(t) =>
      && v.Object? && v.tag < Pow256(4) && t in schema
      && exists i :: 0 <= i < |schema[t]| && ObjectHasType(code, schema, t, i, v)
  }

  ghost predicate ObjectHasType(code: Code, schema: Schema, t: Name, i: nat, v: Value)
    requires v.Object? && t in schema && i < |schema[t]|
    decreases v, 0, |Body(BakedConstructors(schema[t])[i].members)| + 1
  {
    schema[t][i].tag == v.tag && BodyHasType(code, schema, t, Body(BakedConstructors(schema[t])[i].members), v)
  }

  ghost predicate BodyHasType(code: Code, schema: Schema, t: Name, body: seq<Stmt>, v: Value)
    requires v.Object?
    decreases v, 0, |body|
  {
    body == [] ||
    (var s := body[0];
     && (Runs(code, t, s, v.fields) ==>
           && s.alias in v.fields && TypeOf(code, t, s.alias).Some?
           && HasType(code, schema, TypeOf(code, t, s.alias).value, v.fields[s.alias]))
     && BodyHasType(code, schema, t, body[1..], v))
  }

  /** The value without the members that are not present. */
  function Trimmed(code: Code, typ: Type, v: Value): Value
    decreases v, 1, 0
  {
    if typ.Named? && v.Object?
    then Object(v.tag, TrimmedFields(code, typ.name, WriterOf(code, typ.name, v.tag), v, map[]))
    else v
  }

  function TrimmedFields(code: Code, t: Name, body: seq<Stmt>, v: Value, fields: map<Name, Value>): map<Name, Value>
    requires v.Object?
    decreases v, 0, |body| + 1
  {
    if body == [] then fields
    else
      var s := body[0];
      TrimmedFields(code, t, body[1..], v, TrimmedField(code, t, s, v, fields))
  }

  function TrimmedField(code: Code, t: Name, s: Stmt, v: Value, fields: map<Name, Value>): map<Name, Value>
    requires v.Object?
    decreases v, 0, 0
  {
    if Present(code, t, s, v) then fields[s.alias := Trimmed(code, TypeOf(code, t, s.alias).value, v.fields[s.alias])]
    else fields
  }

  // ---------------------------------------------------------------- the round trip

  lemma {:induction false} NumberReadBack(n: nat, size: nat, rest: seq<byte>)
    requires n < Pow256(size)
    ensures NumberRead(Little(n, size) + rest, size) == Read(Num(n), rest)
  {
    var input := Little(n, size) + rest;
    assert input[..size] == Little(n, size) && input[size..] == rest;
    LittleRoundTrip(n, size);
  }

  lemma {:induction false} BytesReadBack(code: Code, data: seq<byte>, rest: seq<byte>)
    requires |data| < TWO24
    ensures ValueRead(code, Bytes, ArrayBytes(data) + rest) == Read(Blob(data), rest)
  {
    ArrayReadBack(data, rest);
  }

  /** The flags read so far are those of the value. */
  ghost predicate FlagsKnown(flags: set<Name>, used: set<Name>, fields: map<Name, Value>, v: Value)
    requires v.Object?
  {
    flags <= used && forall f :: f in flags ==> f in fields && f in v.fields && fields[f] == v.fields[f]
  }

  lemma {:induction false} SameTest(
    enum: seq<Flag>, guard: Guard, flags: set<Name>, used: set<Name>, fields: map<Name, Value>, v: Value)
    requires v.Object? && FlagsKnown(flags, used, fields, v) && (guard.Test? ==> guard.flagMember in flags)
    ensures Passes(enum, guard, fields) == Passes(enum, guard, v.fields)
  {
  }

  lemma {:induction false} ObjectReadBack(code: Code, t: Name, v: Value, body: seq<byte>, r: Outcome)
    requires v.Object? && v.tag < Pow256(4)
    requires BodyRead(code, t, ReaderOf(code, t, v.tag), v.tag, map[], body) == r
    ensures ValueRead(code, Named(t), Little(v.tag, 4) + body) == r
  {
    var input := Little(v.tag, 4) + body;
    assert input[..4] == Little(v.tag, 4) && input[4..] == body;
    LittleRoundTrip(v.tag, 4);
  }

  /** What was written for a value is read as that value, without what was not present, and no more is consumed. */
  lemma {:induction false} RoundTrip(code: Code, schema: Schema, typ: Type, v: Value, rest: seq<byte>)
    requires Generated(code, schema) && WellFormedSchema(schema) && HasType(code, schema, typ, v)
    ensures ValueRead(code, typ, Written(code, typ, v) + rest) == Read(Trimmed(code, typ, v), rest)
    decreases v, 1, 0
  {
    match typ
    case Int => NumberReadBack(v.n, 4, rest);
    case Long => NumberReadBack(v.n, 8, rest);
    case Bytes => BytesReadBack(code, v.data, rest);
    case Named(t) =>
      var body := TypedBody(code, schema, t, v);
      var written := WrittenBody(code, t, body, v);
      BodyRoundTrip(code, schema, t, body, v, map[], {}, {}, rest);
      ObjectReadBack(code, t, v, written + rest, Read(Trimmed(code, typ, v), rest));
      Associative(Little(v.tag, 4), written, rest);
  }

  /** Reader and writer run the statements of the constructor. */
  lemma {:induction false} TypedBody(code: Code, schema: Schema, t: Name, v: Value) returns (body: seq<Stmt>)
    requires Generated(code, schema) && WellFormedSchema(schema) && HasType(code, schema, Named(t), v)
    ensures v.Object? && v.tag < Pow256(4)
    ensures body == ReaderOf(code, t, v.tag) == WriterOf(code, t, v.tag)
    ensures WellFormed(Of(code, t).fields, body, {}, {}) && BodyHasType(code, schema, t, body, v)
  {
    var i :| 0 <= i < |schema[t]| && ObjectHasType(code, schema, t, i, v);
    var cs := BakedConstructors(schema[t]);
    body := Body(cs[i].members);
    assert IsCodeOf(code[t], cs) && cs[i].tag == v.tag;
  }

  lemma {:induction false} BodyRoundTrip(
    code: Code, schema: Schema, t: Name, body: seq<Stmt>, v: Value,
    fields: map<Name, Value>, flags: set<Name>, used: set<Name>, rest: seq<byte>)
    requires Generated(code, schema) && WellFormedSchema(schema) && v.Object?
    requires WellFormed(Of(code, t).fields, body, flags, used) && BodyHasType(code, schema, t, body, v)
    requires FlagsKnown(flags, used, fields, v)
    ensures BodyRead(code, t, body, v.tag, fields, WrittenBody(code, t, body, v) + rest) ==
            Read(Object(v.tag, TrimmedFields(code, t, body, v, fields)), rest)
    decreases v, 0, |body|
  {
    if body == [] {
      assert WrittenBody(code, t, body, v) + rest == rest;
    } else {
      var s := body[0];
      SameTest(Of(code, t).enum, s.guard, flags, used, fields, v);
      var flags' := FlagsAfter(Of(code, t).fields, s, flags);
      var fields' := TrimmedField(code, t, s, v, fields);
      if Runs(code, t, s, v.fields) {
        var typ := TypeOf(code, t, s.alias).value;
        var w, tail := Written(code, typ, v.fields[s.alias]), WrittenBody(code, t, body[1..], v);
        Associative(w, tail, rest);
        RoundTrip(code, schema, typ, v.fields[s.alias], tail + rest);
      }
      assert FlagsKnown(flags', used + {s.alias}, fields', v);
      BodyRoundTrip(code, schema, t, body[1..], v, fields', flags', used + {s.alias}, rest);
    }
  }

  // ---------------------------------------------------------------- which members come back

  ghost predicate DistinctAliases(body: seq<Stmt>) {
    forall i, j :: 0 <= i < j < |body| ==> body[i].alias != body[j].alias
  }

  lemma {:induction false} OthersKept(code: Code, t: Name, body: seq<Stmt>, v: Value, fields: map<Name, Value>, a: Name)
    requires v.Object? && forall i :: 0 <= i < |body| && Present(code, t, body[i], v) ==> body[i].alias != a
    ensures a in TrimmedFields(code, t, body, v, fields) <==> a in fields
    ensures a in fields ==> TrimmedFields(code, t, body, v, fields)[a] == fields[a]
    decreases |body|
  {
    if body != [] {
      OthersKept(code, t, body[1..], v, TrimmedField(code, t, body[0], v, fields), a);
    }
  }

  lemma {:induction false} PresentKept(code: Code, t: Name, body: seq<Stmt>, v: Value, fields: map<Name, Value>, k: nat)
    requires v.Object? && DistinctAliases(body) && k < |body| && Present(code, t, body[k], v)
    ensures var a, r := body[k].alias, TrimmedFields(code, t, body, v, fields);
            a in r && r[a] == Trimmed(code, TypeOf(code, t, a).value, v.fields[a])
    decreases |body|
  {
    var s := body[0];
    var fields' := TrimmedField(code, t, s, v, fields);
    if k == 0 {
      OthersKept(code, t, body[1..], v, fields', s.alias);
    } else {
      assert DistinctAliases(body[1..]);
      PresentKept(code, t, body[1..], v, fields', k - 1);
    }
  }

  /** Trimming keeps the constructor and exactly the members that are present. */
  lemma {:induction false} ExactlyPresentKept(code: Code, t: Name, v: Value, a: Name)
    requires v.Object? && DistinctAliases(WriterOf(code, t, v.tag))
    ensures var body, r := WriterOf(code, t, v.tag), Trimmed(code, Named(t), v);
            && r.Object? && r.tag == v.tag
            && (a in r.fields <==> exists k :: 0 <= k < |body| && body[k].alias == a && Present(code, t, body[k], v))
            && (a in r.fields ==>
                  a in v.fields && TypeOf(code, t, a).Some? &&
                    r.fields[a] == Trimmed(code, TypeOf(code, t, a).value, v.fields[a]))
  {
    var body := WriterOf(code, t, v.tag);
    if k :| 0 <= k < |body| && body[k].alias == a && Present(code, t, body[k], v) {
      PresentKept(code, t, body, v, map[], k);
    } else {
      OthersKept(code, t, body, v, map[], a);
    }
  }

  // ---------------------------------------------------------------- flags that come too late

  /** The member at `k` is tested before the flags that it depends on were read. */
  ghost predicate Early(body: seq<Stmt>, k: nat) {
    && k < |body| && body[k].guard.Test?
    && forall j :: 0 <= j < k ==> body[j].alias != body[k].guard.flagMember
  }

  /** Such a member is never read, from whatever bytes. */
  lemma {:induction false} EarlyNeverRead(
    code: Code, t: Name, body: seq<Stmt>, tag: nat, fields: map<Name, Value>, input: seq<byte>, k: nat)
    requires Early(body, k) && DistinctAliases(body)
    requires body[k].alias !in fields && body[k].guard.flagMember !in fields
    ensures var r := BodyRead(code, t, body, tag, fields, input);
            r.Read? ==> r.value.Object? && body[k].alias !in r.value.fields
    decreases |body|
  {
    var s := body[0];
    if k == 0 {
      NeverRead(code, t, body[1..], tag, fields, input, s.alias);
    } else {
      assert Early(body[1..], k - 1) && DistinctAliases(body[1..]);
      if !Runs(code, t, s, fields) {
        EarlyNeverRead(code, t, body[1..], tag, fields, input, k - 1);
      } else {
        var typ := TypeOf(code, t, s.alias);
        var r := if typ.None? then Failure else ValueRead(code, typ.value, input);
        if r.Read? {
          EarlyNeverRead(code, t, body[1..], tag, fields[s.alias := r.value], r.rest, k - 1);
        }
      }
    }
  }

  lemma {:induction false} NeverRead(
    code: Code, t: Name, body: seq<Stmt>, tag: nat, fields: map<Name, Value>, input: seq<byte>, a: Name)
    requires a !in fields && forall i :: 0 <= i < |body| ==> body[i].alias != a
    ensures var r := BodyRead(code, t, body, tag, fields, input);
            r.Read? ==> r.value.Object? && a !in r.value.fields
    decreases |body|
  {
    if body != [] {
      var s := body[0];
      if !Runs(code, t, s, fields) {
        NeverRead(code, t, body[1..], tag, fields, input, a);
      } else {
        var typ := TypeOf(code, t, s.alias);
        var r := if typ.None? then Failure else ValueRead(code, typ.value, input);
        if r.Read? {
          NeverRead(code, t, body[1..], tag, fields[s.alias := r.value], r.rest, a);
        }
      }
    }
  }

  /** So the round trip fails for every value in which such a member is present. */
  lemma {:induction false} EarlyMemberLost(code: Code, t: Name, v: Value, k: nat, rest: seq<byte>)
    requires v.Object? && v.tag < Pow256(4) && ReaderOf(code, t, v.tag) == WriterOf(code, t, v.tag)
    requires var body := WriterOf(code, t, v.tag);
             Early(body, k) && DistinctAliases(body) && Present(code, t, body[k], v)
    ensures ValueRead(code, Named(t), Written(code, Named(t), v) + rest) != Read(Trimmed(code, Named(t), v), rest)
  {
    var body := WriterOf(code, t, v.tag);
    var input := WrittenBody(code, t, body, v) + rest;
    PresentKept(code, t, body, v, map[], k);
    EarlyNeverRead(code, t, body, v.tag, map[], input, k);
    ObjectReadBack(code, t, v, input, BodyRead(code, t, body, v.tag, map[], input));
    Associative(Little(v.tag, 4), WrittenBody(code, t, body, v), rest);
  }

  /** The flags that the statement at `k` tests are known or were read unconditionally before. */
  ghost predicate FlagsBefore(fields: seq<Binding<Type>>, body: seq<Stmt>, flags: set<Name>, k: nat)
    requires k < |body|
  {
    body[k].guard.Test? ==>
      || body[k].guard.flagMember in flags
      || exists j :: 0 <= j < k && body[j].alias == body[k].guard.flagMember && IsFlags(fields, body[j])
  }

  predicate IsFlags(fields: seq<Binding<Type>>, s: Stmt) {
    s.guard.Unguarded? && Lookup(fields, s.alias) == Some(Int)
  }

  lemma {:induction false} FlagsBeforeTail(fields: seq<Binding<Type>>, body: seq<Stmt>, flags: set<Name>, k: nat)
    requires 0 < k < |body|
    ensures FlagsBefore(fields, body, flags, k) <==>
            FlagsBefore(fields, body[1..], FlagsAfter(fields, body[0], flags), k - 1)
  {
    var tail, guard := body[1..], body[k].guard;
    if guard.Test? {
      if j :| 0 <= j < k && body[j].alias == guard.flagMember && IsFlags(fields, body[j]) {
        if j > 0 {
          assert tail[j - 1] == body[j];
        }
      }
      if j :| 0 <= j < k - 1 && tail[j].alias == guard.flagMember && IsFlags(fields, tail[j]) {
        assert body[j + 1] == tail[j];
      }
    }
  }

  /** What well-formed means, statement by statement. */
  lemma {:induction false} WellFormedMeans(
    fields: seq<Binding<Type>>, body: seq<Stmt>, flags: set<Name>, used: set<Name>)
    ensures WellFormed(fields, body, flags, used) <==>
            && DistinctAliases(body)
            && (forall i :: 0 <= i < |body| ==> body[i].alias !in used)
            && (forall k :: 0 <= k < |body| ==> FlagsBefore(fields, body, flags, k))
    decreases |body|
  {
    if body != [] {
      var s, tail := body[0], body[1..];
      var flags' := FlagsAfter(fields, s, flags);
      WellFormedMeans(fields, tail, flags', used + {s.alias});
      AliasesTail(body, used);
      FlagsBeforeAll(fields, body, flags);
    }
  }

  lemma {:induction false} FlagsBeforeAll(fields: seq<Binding<Type>>, body: seq<Stmt>, flags: set<Name>)
    requires body != []
    ensures (forall k :: 0 <= k < |body| ==> FlagsBefore(fields, body, flags, k)) <==>
            && FlagsBefore(fields, body, flags, 0)
            && forall k :: 0 <= k < |body[1..]| ==>
                 FlagsBefore(fields, body[1..], FlagsAfter(fields, body[0], flags), k)
  {
    forall k | 0 < k < |body|
      ensures FlagsBefore(fields, body, flags, k) <==>
              FlagsBefore(fields, body[1..], FlagsAfter(fields, body[0], flags), k - 1)
    {
      FlagsBeforeTail(fields, body, flags, k);
    }
    var tail, flags' := body[1..], FlagsAfter(fields, body[0], flags);
    forall k | 0 <= k < |tail|
      ensures FlagsBefore(fields, tail, flags', k) <==> FlagsBefore(fields, body, flags, k + 1)
    {
      FlagsBeforeTail(fields, body, flags, k + 1);
    }
  }

  lemma {:induction false} AliasesTail(body: seq<Stmt>, used: set<Name>)
    requires body != []
    ensures var s, tail := body[0], body[1..];
            (DistinctAliases(body) && forall i :: 0 <= i < |body| ==> body[i].alias !in used) <==>
            (DistinctAliases(tail) && s.alias !in used && forall i :: 0 <= i < |tail| ==>
              tail[i].alias !in used + {s.alias})
  {
    var s, tail := body[0], body[1..];
    assert forall i :: 0 < i < |body| ==> body[i] == tail[i - 1];
    assert forall i :: 0 <= i < |tail| ==> tail[i] == body[i + 1];
  }

  // ---------------------------------------------------------------- generating the code

  /** Declarations, constants, reader and writer of one type. */
  method GenerateType(cs: seq<Constructor>) returns (c: TypeCode)
    requires DistinctTags(cs)
    ensures IsCodeOf(c, BakedConstructors(cs))
  {
    var baked := BakeFlags(cs);
    var fields := EmitFields(AllMembers(baked));
    var enum := EmitFlags(AllMembers(baked));
    var reader := EmitSwitch(baked);
    var writer := EmitSwitch(baked);
    c := TypeCode(fields, enum, reader, writer);
  }

  /** The loop of `generate` over the solved types. */
  method Generate(names: seq<Name>, schema: Schema) returns (code: Code)
    requires forall t :: t in schema ==> t in names && DistinctTags(schema[t])
    ensures Generated(code, schema)
  {
    code := map[];
    for i := 0 to |names|
      invariant forall t :: t in schema && t in names[..i] ==>
                t in code && IsCodeOf(code[t], BakedConstructors(schema[t]))
    {
      if names[i] in schema {
        var c := GenerateType(schema[names[i]]);
        code := code[names[i] := c];
      }
    }
    assert names[..|names|] == names;
  }
}
