/**
 The emitted code against the schema itself: a member is present if its own bit of the flags
 is set, and exactly the present members are written and read back.
 */
module SchemaMeaning {
  import opened Arithmetic
  import opened Bytes
  import opened RawStream
  import opened Options
  import opened Bindings
  import opened Schema
  import opened SchemaFlags
  import opened SchemaCodec

  /** A member with data behind it, not only a flag. */
  predicate IsData(m: Member) {
    !(m.presence.OnFlag? && m.typ == Flagged)
  }

  /** The schema says that the member is there. */
  predicate IsPresent(m: Member, fields: map<Name, Value>) {
    match m.presence
    case Always => true
    case OnFlag(flagMember, _, bit) =>
      flagMember in fields && fields[flagMember].Num? && BitSet(fields[flagMember].n, bit)
  }

  /** Every baked flag name means one bit, every member name has one type, and flags come first. */
  ghost predicate Sound(schema: Schema) {
    && WellFormedSchema(schema)
    && forall t :: t in schema ==>
         Consistent(Baked(TypeFlags(schema[t]))) && Consistent(FieldsOf(AllMembers(schema[t])))
  }

  // ---------------------------------------------------------------- bits

  /** The number whose set bits are these, listed from the highest on. */
  function SumOf(bits: seq<nat>): nat {
    if bits == [] then 0 else Pow2(bits[0]) + SumOf(bits[1..])
  }

  ghost predicate FromHighest(bits: seq<nat>) {
    forall i, j :: 0 <= i < j < |bits| ==> bits[i] > bits[j]
  }

  lemma {:induction false} PowersDouble(k: nat, n: nat)
    requires k <= n
    ensures Pow2(n) == Pow2(n - k) * Pow2(k) && Pow2(k) <= Pow2(n)
    decreases k
  {
    if k > 0 {
      PowersDouble(k - 1, n - 1);
      assert n - 1 - (k - 1) == n - k;
      assert 2 * (Pow2(n - k) * Pow2(k - 1)) == Pow2(n - k) * (2 * Pow2(k - 1));
    }
  }

  lemma {:induction false} SumBelow(bits: seq<nat>, n: nat)
    requires FromHighest(bits) && (bits != [] ==> bits[0] < n)
    ensures SumOf(bits) < Pow2(n)
  {
    if bits != [] {
      SumBelow(bits[1..], bits[0]);
      PowersDouble(bits[0] + 1, n);
    }
  }

  lemma {:induction false} EvenAdded(h: nat, q: nat)
    ensures (2 * h + q) % 2 == q % 2
  {
    ModAdd(2, h, q);
  }

  /** An even multiple of `p` in front does not change the parity of the quotient. */
  lemma {:induction false} EvenMultiple(p: nat, h: nat, x: nat)
    requires p > 0
    ensures (2 * h * p + x) / p % 2 == x / p % 2
  {
    var q, r := x / p, x % p;
    Distributed(p, 2 * h, q, r);
    Div(p, 2 * h + q, r);
    EvenAdded(h, q);
  }

  lemma {:induction false} Distributed(p: nat, a: nat, q: nat, r: nat)
    ensures a * p + (q * p + r) == (a + q) * p + r
  {
  }

  /** Adding a higher power of two does not change the bits below it. */
  lemma {:induction false} HigherPower(x: nat, k: nat, bit: nat)
    requires bit < k
    ensures BitSet(Pow2(k) + x, bit) <==> BitSet(x, bit)
  {
    PowersDouble(bit, k);
    EvenMultiple(Pow2(bit), Pow2(k - bit - 1), x);
  }

  lemma {:induction false} OwnPower(x: nat, k: nat)
    requires x < Pow2(k)
    ensures BitSet(Pow2(k) + x, k)
  {
    Div(Pow2(k), 1, x);
  }

  lemma {:induction false} BelowPower(x: nat, bit: nat)
    requires x < Pow2(bit)
    ensures !BitSet(x, bit)
  {
    Div(Pow2(bit), 0, x);
  }

  /** In a sum of different powers of two exactly the bits of the summands are set. */
  lemma {:induction false} BitsOfSum(bits: seq<nat>, bit: nat)
    requires FromHighest(bits)
    ensures BitSet(SumOf(bits), bit) <==> bit in bits
  {
    if bits == [] {
      BelowPower(0, bit);
    } else {
      SumBelow(bits[1..], bits[0]);
      assert bit in bits <==> bit == bits[0] || bit in bits[1..];
      if bit < bits[0] {
        HigherPower(SumOf(bits[1..]), bits[0], bit);
        BitsOfSum(bits[1..], bit);
      } else if bit == bits[0] {
        OwnPower(SumOf(bits[1..]), bit);
      } else {
        SumBelow(bits, bit);
        BelowPower(SumOf(bits), bit);
      }
    }
  }

  // ---------------------------------------------------------------- statements and members

  lemma {:induction false} MemberOfStmt(ms: seq<Member>, k: nat) returns (n: nat)
    requires k < |Body(ms)|
    ensures n < |ms| && StmtOf(ms[n]) == [Body(ms)[k]]
    decreases |ms|
  {
    var init := ms[..|ms| - 1];
    if k < |Body(init)| {
      n := MemberOfStmt(init, k);
    } else {
      n := |ms| - 1;
    }
  }

  lemma {:induction false} StmtOfMember(ms: seq<Member>, n: nat) returns (k: nat)
    requires n < |ms| && IsData(ms[n])
    ensures k < |Body(ms)| && StmtOf(ms[n]) == [Body(ms)[k]]
    decreases |ms|
  {
    var init := ms[..|ms| - 1];
    if n < |init| {
      k := StmtOfMember(init, n);
    } else {
      k := |Body(init)|;
    }
  }

  /** The test emitted for an optional member is the test of its own bit. */
  lemma {:induction false} TestIsBit(code: Code, schema: Schema, t: Name, i: nat, n: nat, fields: map<Name, Value>)
    requires Generated(code, schema) && t in schema && Consistent(Baked(TypeFlags(schema[t])))
    requires i < |schema[t]| && n < |schema[t][i].members| && IsData(schema[t][i].members[n])
    ensures var s := StmtOf(BakedConstructors(schema[t])[i].members[n])[0];
            Runs(code, t, s, fields) <==> IsPresent(schema[t][i].members[n], fields)
  {
    if schema[t][i].members[n].presence.OnFlag? {
      NameMeansBit(schema[t], i, n);
      assert IsCodeOf(code[t], BakedConstructors(schema[t]));
    }
  }

  lemma {:induction false} FieldsOfBaked(fs: seq<Flag>, ms: seq<Member>)
    ensures FieldsOf(BakedMembers(fs, ms)) == FieldsOf(ms)
  {
  }

  /** The declared type of a member is its own type. */
  lemma {:induction false} TypeIsOwn(code: Code, schema: Schema, t: Name, i: nat, n: nat)
    requires Generated(code, schema) && t in schema && Consistent(FieldsOf(AllMembers(schema[t])))
    requires i < |schema[t]| && n < |schema[t][i].members|
    ensures TypeOf(code, t, schema[t][i].members[n].alias) == Some(schema[t][i].members[n].typ)
  {
    var cs := schema[t];
    assert IsCodeOf(code[t], BakedConstructors(cs));
    AllMembersBaked(TypeFlags(cs), cs);
    FieldsOfBaked(TypeFlags(cs), AllMembers(cs));
    var j := MemberOfAll(cs, i, n);
    var fields := FieldsOf(AllMembers(cs));
    assert fields[j] == Binding(cs[i].members[n].alias, cs[i].members[n].typ);
    EveryValueRightIff(fields);
  }

  // ---------------------------------------------------------------- values of the schema

  /** The value has the type that the schema says. */
  ghost predicate Typed(schema: Schema, typ: Type, v: Value)
    decreases v, 1
  {
    match typ
    case Int => v.Num? && v.n < Pow256(4)
    case Long => v.Num? && v.n < Pow256(8)
    case Bytes => v.Blob? && |v.data| < TWO24
    case Flagged => false
    case Named(t) =>
      && v.Object? && v.tag < Pow256(4) && t in schema
      && exists i :: 0 <= i < |schema[t]| && schema[t][i].tag == v.tag && MembersTyped(schema, schema[t][i].members, v)
  }

  ghost predicate MembersTyped(schema: Schema, ms: seq<Member>, v: Value)
    requires v.Object?
    decreases v, 0
  {
    forall n :: 0 <= n < |ms| && IsData(ms[n]) && IsPresent(ms[n], v.fields) ==>
      ms[n].alias in v.fields && Typed(schema, ms[n].typ, v.fields[ms[n].alias])
  }

  /** The result has the same constructor and exactly the present members, each the same in this sense. */
  ghost predicate Matches(schema: Schema, typ: Type, v: Value, r: Value)
    decreases v, 1
  {
    if !typ.Named? then r == v
    else
      && v.Object? && r.Object? && r.tag == v.tag && typ.name in schema
      && exists i :: 0 <= i < |schema[typ.name]| && schema[typ.name][i].tag == v.tag
                     && MembersMatch(schema, schema[typ.name][i].members, v, r)
  }

  ghost predicate MembersMatch(schema: Schema, ms: seq<Member>, v: Value, r: Value)
    requires v.Object? && r.Object?
    decreases v, 0
  {
    && (forall a :: a in r.fields ==>
          exists n :: 0 <= n < |ms| && ms[n].alias == a && IsData(ms[n]) && IsPresent(ms[n], v.fields))
    && (forall n :: 0 <= n < |ms| && IsData(ms[n]) && IsPresent(ms[n], v.fields) ==>
          && ms[n].alias in r.fields && ms[n].alias in v.fields
          && Matches(schema, ms[n].typ, v.fields[ms[n].alias], r.fields[ms[n].alias]))
  }

  // ---------------------------------------------------------------- typed values suit the code

  lemma {:induction false} BodyTyped(code: Code, schema: Schema, t: Name, body: seq<Stmt>, v: Value)
    requires v.Object?
    requires forall k :: 0 <= k < |body| && Runs(code, t, body[k], v.fields) ==>
               && body[k].alias in v.fields && TypeOf(code, t, body[k].alias).Some?
               && HasType(code, schema, TypeOf(code, t, body[k].alias).value, v.fields[body[k].alias])
    ensures BodyHasType(code, schema, t, body, v)
    decreases |body|
  {
    if body != [] {
      forall k | 0 <= k < |body[1..]| ensures body[1..][k] == body[k + 1] {
      }
      BodyTyped(code, schema, t, body[1..], v);
    }
  }

  /** The statement at `k` of a constructor and the member it was emitted for. */
  lemma {:induction false} StmtMeaning(
    code: Code, schema: Schema, t: Name, i: nat, k: nat, fields: map<Name, Value>) returns (n: nat)
    requires Generated(code, schema) && Sound(schema) && t in schema && i < |schema[t]|
    requires k < |Body(BakedConstructors(schema[t])[i].members)|
    ensures n < |schema[t][i].members| && IsData(schema[t][i].members[n])
    ensures var s, m := Body(BakedConstructors(schema[t])[i].members)[k], schema[t][i].members[n];
            && s.alias == m.alias && TypeOf(code, t, s.alias) == Some(m.typ)
            && (Runs(code, t, s, fields) <==> IsPresent(m, fields))
  {
    n := MemberOfStmt(BakedConstructors(schema[t])[i].members, k);
    TestIsBit(code, schema, t, i, n, fields);
    TypeIsOwn(code, schema, t, i, n);
  }

  lemma {:induction false} TypedHasType(code: Code, schema: Schema, typ: Type, v: Value)
    requires Generated(code, schema) && Sound(schema) && Typed(schema, typ, v)
    ensures HasType(code, schema, typ, v)
    decreases v, 1
  {
    if typ.Named? {
      var t := typ.name;
      var i :| 0 <= i < |schema[t]| && schema[t][i].tag == v.tag && MembersTyped(schema, schema[t][i].members, v);
      MembersHaveType(code, schema, t, i, v);
      assert ObjectHasType(code, schema, t, i, v);
    }
  }

  lemma {:induction false} MembersHaveType(code: Code, schema: Schema, t: Name, i: nat, v: Value)
    requires Generated(code, schema) && Sound(schema) && t in schema && i < |schema[t]| && v.Object?
    requires MembersTyped(schema, schema[t][i].members, v)
    ensures BodyHasType(code, schema, t, Body(BakedConstructors(schema[t])[i].members), v)
    decreases v, 0
  {
    var body := Body(BakedConstructors(schema[t])[i].members);
    forall k | 0 <= k < |body| && Runs(code, t, body[k], v.fields)
      ensures body[k].alias in v.fields && TypeOf(code, t, body[k].alias).Some?
      ensures HasType(code, schema, TypeOf(code, t, body[k].alias).value, v.fields[body[k].alias])
    {
      var n := StmtMeaning(code, schema, t, i, k, v.fields);
      TypedHasType(code, schema, schema[t][i].members[n].typ, v.fields[body[k].alias]);
    }
    BodyTyped(code, schema, t, body, v);
  }

  // ---------------------------------------------------------------- what comes back matches

  lemma {:induction false} TrimmedMatches(code: Code, schema: Schema, typ: Type, v: Value)
    requires Generated(code, schema) && Sound(schema) && Typed(schema, typ, v)
    ensures Matches(schema, typ, v, Trimmed(code, typ, v))
    decreases v, 1
  {
    if typ.Named? {
      var t := typ.name;
      var i :| 0 <= i < |schema[t]| && schema[t][i].tag == v.tag && MembersTyped(schema, schema[t][i].members, v);
      TrimmedMembersMatch(code, schema, t, i, v);
    }
  }

  lemma {:induction false} WriterIs(code: Code, schema: Schema, t: Name, i: nat, v: Value)
    requires Generated(code, schema) && Sound(schema) && t in schema && i < |schema[t]|
    requires v.Object? && schema[t][i].tag == v.tag
    ensures WriterOf(code, t, v.tag) == Body(BakedConstructors(schema[t])[i].members)
    ensures DistinctAliases(WriterOf(code, t, v.tag))
  {
    var cs := BakedConstructors(schema[t]);
    assert IsCodeOf(code[t], cs) && cs[i].tag == v.tag;
    WellFormedMeans(TypeFields(cs), Body(cs[i].members), {}, {});
  }

  lemma {:induction false} TrimmedMembersMatch(code: Code, schema: Schema, t: Name, i: nat, v: Value)
    requires Generated(code, schema) && Sound(schema) && t in schema && i < |schema[t]|
    requires v.Object? && schema[t][i].tag == v.tag && MembersTyped(schema, schema[t][i].members, v)
    ensures MembersMatch(schema, schema[t][i].members, v, Trimmed(code, Named(t), v))
    decreases v, 0
  {
    WriterIs(code, schema, t, i, v);
    var ms, body, r := schema[t][i].members, WriterOf(code, t, v.tag), Trimmed(code, Named(t), v);
    forall a | a in r.fields
      ensures exists n :: 0 <= n < |ms| && ms[n].alias == a && IsData(ms[n]) && IsPresent(ms[n], v.fields)
    {
      ExactlyPresentKept(code, t, v, a);
      var k :| 0 <= k < |body| && body[k].alias == a && Present(code, t, body[k], v);
      var n := StmtMeaning(code, schema, t, i, k, v.fields);
    }
    forall n | 0 <= n < |ms| && IsData(ms[n]) && IsPresent(ms[n], v.fields)
      ensures ms[n].alias in r.fields && ms[n].alias in v.fields
      ensures Matches(schema, ms[n].typ, v.fields[ms[n].alias], r.fields[ms[n].alias])
    {
      MemberKept(code, schema, t, i, v, n);
      TrimmedMatches(code, schema, ms[n].typ, v.fields[ms[n].alias]);
    }
  }

  lemma {:induction false} MemberKept(code: Code, schema: Schema, t: Name, i: nat, v: Value, n: nat)
    requires Generated(code, schema) && Sound(schema) && t in schema && i < |schema[t]|
    requires v.Object? && schema[t][i].tag == v.tag && MembersTyped(schema, schema[t][i].members, v)
    requires n < |schema[t][i].members|
    requires IsData(schema[t][i].members[n]) && IsPresent(schema[t][i].members[n], v.fields)
    ensures var m, r := schema[t][i].members[n], Trimmed(code, Named(t), v);
            m.alias in r.fields && m.alias in v.fields && r.fields[m.alias] == Trimmed(code, m.typ, v.fields[m.alias])
  {
    WriterIs(code, schema, t, i, v);
    var baked := BakedConstructors(schema[t])[i].members;
    var k := StmtOfMember(baked, n);
    TestIsBit(code, schema, t, i, n, v.fields);
    TypeIsOwn(code, schema, t, i, n);
    PresentKept(code, t, WriterOf(code, t, v.tag), v, map[], k);
  }

  /**
   For every sound schema and every value of it: the emitted reader applied to what the emitted
   writer wrote, whatever follows, consumes exactly those bytes and gives the same constructor
   with exactly the members whose bits are set.
   */
  lemma {:induction false} SchemaRoundTrip(code: Code, schema: Schema, typ: Type, v: Value, rest: seq<byte>)
    requires Generated(code, schema) && Sound(schema) && Typed(schema, typ, v)
    ensures var r := ValueRead(code, typ, Written(code, typ, v) + rest);
            r.Read? && r.rest == rest && Matches(schema, typ, v, r.value)
  {
    TypedHasType(code, schema, typ, v);
    RoundTrip(code, schema, typ, v, rest);
    TrimmedMatches(code, schema, typ, v);
  }
}
