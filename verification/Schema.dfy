/**
 What the generator emits for a schema: per type a switch over its constructors, with one
 statement per member, and the constants for the flags of optional members.
 */
module Schema {
  import opened Bindings

  /** `Flagged` is the type `true`: a flag without data behind it. */
  datatype Type = Int | Long | Bytes | Flagged | Named(name: Name)

  /** An optional member is there if a bit of a flags member is set; the bit has a name. */
  datatype Presence = Always | OnFlag(flagMember: Name, flagName: Name, bit: nat)

  datatype Member = Member(alias: Name, typ: Type, presence: Presence)

  datatype Constructor = Constructor(tag: nat, members: seq<Member>)

  type Schema = map<Name, seq<Constructor>>

  /** The members of all constructors of a type, in order. */
  function AllMembers(cs: seq<Constructor>): seq<Member> {
    if cs == [] then [] else AllMembers(cs[..|cs| - 1]) + cs[|cs| - 1].members
  }

  /** The declared members of a type with their types. */
  function FieldsOf(ms: seq<Member>): seq<Binding<Type>> {
    seq(|ms|, i requires 0 <= i < |ms| => Binding(ms[i].alias, ms[i].typ))
  }

  /** `generateTLTypeMembers`: a name that was added already is not added again. */
  method EmitFields(ms: seq<Member>) returns (fields: seq<Binding<Type>>)
    ensures fields == Declared(FieldsOf(ms))
  {
    fields := [];
    for i := 0 to |ms|
      invariant fields == Declared(FieldsOf(ms[..i]))
    {
      ghost var before := FieldsOf(ms[..i]);
      assert FieldsOf(ms[..i + 1]) == before + [Binding(ms[i].alias, ms[i].typ)];
      assert FieldsOf(ms[..i + 1])[..i] == before;
      if !Declares(fields, ms[i].alias) {
        fields := fields + [Binding(ms[i].alias, ms[i].typ)];
      }
    }
    assert ms[..|ms|] == ms;
  }

  // ---------------------------------------------------------------- emitted code

  datatype Guard = Unguarded | Test(flagMember: Name, flagName: Name)

  /**
   `*this >> result.alias` or `*this << value.alias`, perhaps under a test of a flag. The
   operator is that of the declared type of the member.
   */
  datatype Stmt = Stmt(alias: Name, guard: Guard)

  datatype Case = Case(tags: seq<nat>, body: seq<Stmt>)

  /** The cases of the emitted switch, in order. */
  type Switch = seq<Case>

  function BodyOf(s: Switch, tag: nat): seq<Stmt> {
    if s == [] then [] else if tag in s[0].tags then s[0].body else BodyOf(s[1..], tag)
  }

  /** The statement of a member, or none for a member that is only a flag. */
  function StmtOf(m: Member): seq<Stmt> {
    match m.presence
    case Always => [Stmt(m.alias, Unguarded)]
    case OnFlag(flagMember, flagName, bit) =>
      if m.typ == Flagged then [] else [Stmt(m.alias, Test(flagMember, flagName))]
  }

  function Body(ms: seq<Member>): seq<Stmt> {
    if ms == [] then [] else Body(ms[..|ms| - 1]) + StmtOf(ms[|ms| - 1])
  }

  /** `streamReadPerTypeImplementation` and its counterpart for writing, which emit the same statements. */
  method EmitBody(ms: seq<Member>) returns (code: seq<Stmt>)
    ensures code == Body(ms)
  {
    code := [];
    for i := 0 to |ms|
      invariant code == Body(ms[..i])
    {
      assert ms[..i + 1][..i] == ms[..i];
      var m := ms[i];
      if m.presence.OnFlag? {
        if m.typ != Flagged {
          code := code + [Stmt(m.alias, Test(m.presence.flagMember, m.presence.flagName))];
        }
      } else {
        code := code + [Stmt(m.alias, Unguarded)];
      }
    }
    assert ms[..|ms|] == ms;
  }

  // ---------------------------------------------------------------- merging equal cases

  ghost predicate DistinctTags(cs: seq<Constructor>) {
    forall i, j :: 0 <= i < j < |cs| ==> cs[i].tag != cs[j].tag
  }

  /** The switch runs for each constructor its own statements, and nothing for any other tag. */
  ghost predicate Implements(s: Switch, cs: seq<Constructor>) {
    && (forall i :: 0 <= i < |cs| ==> BodyOf(s, cs[i].tag) == Body(cs[i].members))
    && (forall tag: nat :: (forall i :: 0 <= i < |cs| ==> cs[i].tag != tag) ==> BodyOf(s, tag) == [])
  }

  method IndexOf(bodies: seq<seq<Stmt>>, body: seq<Stmt>) returns (index: int)
    ensures index == -1 ==> body !in bodies
    ensures index != -1 ==> 0 <= index < |bodies| && bodies[index] == body
  {
    for i := 0 to |bodies|
      invariant body !in bodies[..i]
    {
      if bodies[i] == body {
        return i;
      }
    }
    return -1;
  }

  /** The first loop: the different implementations, and which one each constructor uses. */
  method CollectImplementations(cs: seq<Constructor>) returns (bodies: seq<seq<Stmt>>, indices: map<nat, nat>)
    requires DistinctTags(cs)
    ensures forall i :: 0 <= i < |cs| ==>
              cs[i].tag in indices && indices[cs[i].tag] < |bodies| && bodies[indices[cs[i].tag]] == Body(cs[i].members)
    ensures forall i, j :: 0 <= i < j < |bodies| ==> bodies[i] != bodies[j]
  {
    bodies, indices := [], map[];
    for k := 0 to |cs|
      invariant forall i :: 0 <= i < k ==>
                  cs[i].tag in indices && indices[cs[i].tag] < |bodies| &&
                    bodies[indices[cs[i].tag]] == Body(cs[i].members)
      invariant forall i, j :: 0 <= i < j < |bodies| ==> bodies[i] != bodies[j]
    {
      var body := EmitBody(cs[k].members);
      var index := IndexOf(bodies, body);
      if index >= 0 {
        indices := indices[cs[k].tag := index];
      } else {
        bodies := bodies + [body];
        indices := indices[cs[k].tag := |bodies| - 1];
      }
    }
  }

  /** A constructor with the tag uses the implementation `n`. */
  predicate Uses(cs: seq<Constructor>, indices: map<nat, nat>, tag: nat, n: nat) {
    tag in indices && indices[tag] == n && exists i :: 0 <= i < |cs| && cs[i].tag == tag
  }

  lemma {:induction false} UsesMore(cs: seq<Constructor>, c: Constructor, indices: map<nat, nat>, tag: nat, n: nat)
    requires c.tag in indices
    ensures Uses(cs + [c], indices, tag, n) <==> Uses(cs, indices, tag, n) || (c.tag == tag && indices[tag] == n)
  {
    if Uses(cs, indices, tag, n) {
      var i :| 0 <= i < |cs| && cs[i].tag == tag;
      assert (cs + [c])[i].tag == tag;
    }
    if c.tag == tag {
      assert (cs + [c])[|cs|].tag == tag;
    }
  }

  /** The labels of one implementation. */
  method CollectLabels(cs: seq<Constructor>, indices: map<nat, nat>, n: nat) returns (tags: seq<nat>)
    requires forall i :: 0 <= i < |cs| ==> cs[i].tag in indices
    ensures forall tag: nat :: tag in tags <==> Uses(cs, indices, tag, n)
  {
    tags := [];
    for k := 0 to |cs|
      invariant forall tag: nat :: tag in tags <==> Uses(cs[..k], indices, tag, n)
    {
      assert cs[..k + 1] == cs[..k] + [cs[k]];
      forall tag: nat ensures Uses(cs[..k + 1], indices, tag, n) <==>
                              Uses(cs[..k], indices, tag, n) || (cs[k].tag == tag && indices[tag] == n)
      {
        UsesMore(cs[..k], cs[k], indices, tag, n);
      }
      if indices[cs[k].tag] == n {
        tags := tags + [cs[k].tag];
      }
    }
    assert cs[..|cs|] == cs;
  }

  /** The cases from `n` on are labelled with exactly the constructors that use them. */
  ghost predicate Labelled(s: Switch, cs: seq<Constructor>, bodies: seq<seq<Stmt>>, indices: map<nat, nat>) {
    && |s| <= |bodies|
    && (forall i :: 0 <= i < |cs| ==> cs[i].tag in indices)
    && (forall n :: 0 <= n < |s| ==> s[n].body == bodies[n])
    && (forall n: nat, tag: nat :: n < |s| ==> (tag in s[n].tags <==> Uses(cs, indices, tag, n)))
  }

  lemma {:induction false} BodyAt(s: Switch, tag: nat, n: nat)
    requires n < |s| && tag in s[n].tags && forall k :: 0 <= k < n ==> tag !in s[k].tags
    ensures BodyOf(s, tag) == s[n].body
    decreases n
  {
    if n > 0 {
      assert tag !in s[0].tags;
      BodyAt(s[1..], tag, n - 1);
    }
  }

  lemma {:induction false} NoBody(s: Switch, tag: nat)
    requires forall k :: 0 <= k < |s| ==> tag !in s[k].tags
    ensures BodyOf(s, tag) == []
  {
    if s != [] {
      assert tag !in s[0].tags;
      NoBody(s[1..], tag);
    }
  }

  lemma {:induction false} LabelledImplements(
    s: Switch, cs: seq<Constructor>, bodies: seq<seq<Stmt>>, indices: map<nat, nat>)
    requires Labelled(s, cs, bodies, indices) && |s| == |bodies|
    requires forall i :: 0 <= i < |cs| ==>
             indices[cs[i].tag] < |bodies| && bodies[indices[cs[i].tag]] == Body(cs[i].members)
    ensures Implements(s, cs)
  {
    forall i | 0 <= i < |cs| ensures BodyOf(s, cs[i].tag) == Body(cs[i].members) {
      var tag, n := cs[i].tag, indices[cs[i].tag];
      assert tag in s[n].tags;
      BodyAt(s, tag, n);
    }
    forall tag: nat | forall i :: 0 <= i < |cs| ==> cs[i].tag != tag ensures BodyOf(s, tag) == [] {
      forall k | 0 <= k < |s| ensures tag !in s[k].tags {
        assert !Uses(cs, indices, tag, k);
      }
      NoBody(s, tag);
    }
  }

  /** `generateStreamOperatorDefinition`: equal cases are merged, none changes its body. */
  method EmitSwitch(cs: seq<Constructor>) returns (s: Switch)
    requires DistinctTags(cs)
    ensures Implements(s, cs)
    ensures forall i, j :: 0 <= i < j < |s| ==> s[i].body != s[j].body
  {
    var bodies, indices := CollectImplementations(cs);
    s := [];
    for n := 0 to |bodies|
      invariant |s| == n && Labelled(s, cs, bodies, indices)
    {
      var tags := CollectLabels(cs, indices, n);
      s := s + [Case(tags, bodies[n])];
    }
    LabelledImplements(s, cs, bodies, indices);
  }
}
