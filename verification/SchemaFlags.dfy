/** The names of the flags of a type: which bit each of them means. */
module SchemaFlags {
  import opened Options
  import opened Bindings
  import opened Schema

  /** An optional member of a type: the name of its flag and the bit it stands for. */
  type Flag = Binding<nat>

  function FlagOf(m: Member): seq<Flag> {
    match m.presence
    case Always => []
    case OnFlag(_, name, bit) => [Binding(name, bit)]
  }

  /** The flags of the optional members, in order. */
  function FlagsOf(ms: seq<Member>): seq<Flag> {
    if ms == [] then [] else FlagsOf(ms[..|ms| - 1]) + FlagOf(ms[|ms| - 1])
  }

  // ---------------------------------------------------------------- the emitted constants

  /** `generateTLTypeMemberFlags`: a name that was added already is not added again. */
  method EmitFlags(ms: seq<Member>) returns (enum: seq<Flag>)
    ensures enum == Declared(FlagsOf(ms))
  {
    enum := [];
    for i := 0 to |ms|
      invariant enum == Declared(FlagsOf(ms[..i]))
    {
      assert ms[..i + 1][..i] == ms[..i];
      ghost var before := FlagsOf(ms[..i]);
      if ms[i].presence.OnFlag? {
        var f := Binding(ms[i].presence.flagName, ms[i].presence.bit);
        assert FlagsOf(ms[..i + 1]) == before + [f];
        assert (before + [f])[..|before|] == before;
        if !Declares(enum, f.name) {
          enum := enum + [f];
        }
      } else {
        assert FlagsOf(ms[..i + 1]) == before;
      }
    }
    assert ms[..|ms|] == ms;
  }

  // ---------------------------------------------------------------- conflicting names

  /** The name stands for two different bits. */
  predicate Conflicted(fs: seq<Flag>, name: Name) {
    exists i, j :: 0 <= i < |fs| && 0 <= j < |fs| && fs[i].name == fs[j].name == name && fs[i].value != fs[j].value
  }

  function Decimal(n: nat): string {
    if n < 10 then [('0' as int + n) as char] else Decimal(n / 10) + [('0' as int + n % 10) as char]
  }

  function BakedName(fs: seq<Flag>, f: Flag): Name {
    if Conflicted(fs, f.name) then f.name + Decimal(f.value) else f.name
  }

  /** The flags `gs` renamed by the conflicts among `fs`. */
  function Renamed(fs: seq<Flag>, gs: seq<Flag>): (r: seq<Flag>)
    ensures |r| == |gs|
    ensures forall i :: 0 <= i < |gs| ==> r[i] == Binding(BakedName(fs, gs[i]), gs[i].value)
  {
    seq(|gs|, i requires 0 <= i < |gs| => Binding(BakedName(fs, gs[i]), gs[i].value))
  }

  function Baked(fs: seq<Flag>): seq<Flag> {
    Renamed(fs, fs)
  }

  function BakedMember(fs: seq<Flag>, m: Member): Member {
    match m.presence
    case Always => m
    case OnFlag(flagMember, name, bit) => m.(presence := OnFlag(flagMember, BakedName(fs, Binding(name, bit)), bit))
  }

  function BakedMembers(fs: seq<Flag>, ms: seq<Member>): (r: seq<Member>)
    ensures |r| == |ms| && forall i :: 0 <= i < |ms| ==> r[i] == BakedMember(fs, ms[i])
  {
    seq(|ms|, i requires 0 <= i < |ms| => BakedMember(fs, ms[i]))
  }

  function BakedBy(fs: seq<Flag>, cs: seq<Constructor>): (r: seq<Constructor>)
    ensures |r| == |cs|
    ensures forall i :: 0 <= i < |cs| ==> r[i] == cs[i].(members := BakedMembers(fs, cs[i].members))
  {
    seq(|cs|, i requires 0 <= i < |cs| => cs[i].(members := BakedMembers(fs, cs[i].members)))
  }

  /** The flags of a type. */
  function TypeFlags(cs: seq<Constructor>): seq<Flag> {
    FlagsOf(AllMembers(cs))
  }

  /** The constructors of a type with the names of their flags made different. */
  function BakedConstructors(cs: seq<Constructor>): seq<Constructor> {
    BakedBy(TypeFlags(cs), cs)
  }

  /** The first loop: remember the first bit of each name, and note the names with another one. */
  method CollectConflicts(fs: seq<Flag>) returns (conflicted: seq<Name>)
    ensures forall name :: name in conflicted <==> Conflicted(fs, name)
  {
    conflicted := [];
    var memberFlags: map<Name, nat> := map[];
    for k := 0 to |fs|
      invariant forall i :: 0 <= i < k ==> fs[i].name in memberFlags
      invariant forall name :: name in memberFlags ==>
                exists i :: 0 <= i < k && fs[i] == Binding(name, memberFlags[name])
      invariant forall name :: name in conflicted ==> Conflicted(fs, name)
      invariant forall i :: 0 <= i < k && memberFlags[fs[i].name] != fs[i].value ==> fs[i].name in conflicted
    {
      var f := fs[k];
      if f.name in memberFlags {
        if memberFlags[f.name] != f.value {
          assert Conflicted(fs, f.name);
          conflicted := conflicted + [f.name];
        }
      } else {
        memberFlags := memberFlags[f.name := f.value];
      }
    }
  }

  /** The second loop, for one constructor: a conflicting name gets its bit appended. */
  method BakeMembers(conflicted: seq<Name>, ghost fs: seq<Flag>, ms: seq<Member>) returns (baked: seq<Member>)
    requires forall name :: name in conflicted <==> Conflicted(fs, name)
    ensures baked == BakedMembers(fs, ms)
  {
    baked := [];
    for i := 0 to |ms|
      invariant baked == BakedMembers(fs, ms)[..i]
    {
      var m := ms[i];
      if m.presence.OnFlag? && m.presence.flagName in conflicted {
        m := m.(presence := m.presence.(flagName := m.presence.flagName + Decimal(m.presence.bit)));
      }
      baked := baked + [m];
    }
  }

  method BakeFlags(cs: seq<Constructor>) returns (baked: seq<Constructor>)
    ensures baked == BakedConstructors(cs)
  {
    var fs := FlagsOf(AllMembers(cs));
    var conflicted := CollectConflicts(fs);
    baked := [];
    for i := 0 to |cs|
      invariant baked == BakedBy(fs, cs)[..i]
    {
      var ms := BakeMembers(conflicted, fs, cs[i].members);
      baked := baked + [cs[i].(members := ms)];
    }
  }

  lemma {:induction false} DecimalInjective(a: nat, b: nat)
    requires Decimal(a) == Decimal(b)
    ensures a == b
  {
    var s, t := Decimal(a), Decimal(b);
    assert s[|s| - 1] == t[|t| - 1];
    if a >= 10 && b >= 10 {
      assert s[..|s| - 1] == Decimal(a / 10) && t[..|t| - 1] == Decimal(b / 10);
      DecimalInjective(a / 10, b / 10);
    } else if a >= 10 {
      DecimalNotEmpty(a / 10);
    } else if b >= 10 {
      DecimalNotEmpty(b / 10);
    }
  }

  lemma {:induction false} DecimalNotEmpty(n: nat)
    ensures |Decimal(n)| >= 1
  {
  }

  /** A new name meets another member's name, which stands for another bit. */
  predicate Meets(fs: seq<Flag>, f: Flag, g: Flag) {
    && Conflicted(fs, f.name) && f.name != g.name && f.value != g.value
    && f.name + Decimal(f.value) == (if Conflicted(fs, g.name) then g.name + Decimal(g.value) else g.name)
  }

  lemma {:induction false} SameBakedName(fs: seq<Flag>, f: Flag, g: Flag)
    requires f in fs && g in fs && BakedName(fs, f) == BakedName(fs, g) && f.value != g.value
    ensures Meets(fs, f, g) || Meets(fs, g, f)
  {
    if f.name == g.name {
      assert Conflicted(fs, f.name);
      var n := |f.name|;
      assert (f.name + Decimal(f.value))[n..] == Decimal(f.value) &&
             (g.name + Decimal(g.value))[n..] == Decimal(g.value);
      DecimalInjective(f.value, g.value);
    }
  }

  /** After baking a name may still stand for two bits, exactly if a new name meets another member's. */
  lemma {:induction false} BakedConsistentIff(fs: seq<Flag>)
    ensures Consistent(Baked(fs)) <==>
            forall i, j :: 0 <= i < |fs| && 0 <= j < |fs| ==> !Meets(fs, fs[i], fs[j])
  {
    if Consistent(Baked(fs)) {
      forall i, j | 0 <= i < |fs| && 0 <= j < |fs| ensures !Meets(fs, fs[i], fs[j]) {
        assert Baked(fs)[i].name == BakedName(fs, fs[i]) && Baked(fs)[j].name == BakedName(fs, fs[j]);
      }
    } else {
      var i, j :| 0 <= i < |fs| && 0 <= j < |fs| && Baked(fs)[i].name == Baked(fs)[j].name
                  && Baked(fs)[i].value != Baked(fs)[j].value;
      SameBakedName(fs, fs[i], fs[j]);
    }
  }

  predicate IsDigit(c: char) {
    '0' <= c <= '9'
  }

  /** The name is the other one followed by digits. */
  predicate Extends(name: Name, other: Name) {
    other <= name && |other| < |name| && forall i :: |other| <= i < |name| ==> IsDigit(name[i])
  }

  lemma {:induction false} DecimalDigits(n: nat)
    ensures forall i :: 0 <= i < |Decimal(n)| ==> IsDigit(Decimal(n)[i])
  {
    if n >= 10 {
      DecimalDigits(n / 10);
    }
  }

  lemma {:induction false} MeetingExtends(fs: seq<Flag>, f: Flag, g: Flag)
    requires Meets(fs, f, g)
    ensures Extends(f.name, g.name) || Extends(g.name, f.name)
  {
    DecimalDigits(f.value);
    DecimalDigits(g.value);
    DecimalNotEmpty(f.value);
    var u := f.name + Decimal(f.value);
    var v := if Conflicted(fs, g.name) then g.name + Decimal(g.value) else g.name;
    assert forall i :: |f.name| <= i < |u| ==> IsDigit(u[i]);
    assert forall i :: |g.name| <= i < |v| ==> IsDigit(v[i]);
    assert u[..|f.name|] == f.name && v[..|g.name|] == g.name;
    if |f.name| < |g.name| {
      assert f.name == g.name[..|f.name|];
      assert forall i :: |f.name| <= i < |g.name| ==> g.name[i] == v[i] == u[i];
    } else if |g.name| < |f.name| {
      assert g.name == f.name[..|g.name|];
      assert forall i :: |g.name| <= i < |f.name| ==> f.name[i] == u[i] == v[i];
    }
  }

  /** A condition on the schema: if no flag name is another one followed by digits, baking succeeds. */
  lemma {:induction false} BakingSucceeds(fs: seq<Flag>)
    requires forall i, j :: 0 <= i < |fs| && 0 <= j < |fs| ==> !Extends(fs[i].name, fs[j].name)
    ensures Consistent(Baked(fs))
  {
    forall i, j | 0 <= i < |fs| && 0 <= j < |fs| ensures !Meets(fs, fs[i], fs[j]) {
      if Meets(fs, fs[i], fs[j]) {
        MeetingExtends(fs, fs[i], fs[j]);
      }
    }
    BakedConsistentIff(fs);
  }

  /** Two members `Foo` with the bits 1 and 2, and one `Foo1` with the bit 3: `Foo1` stands for 1 and 3. */
  lemma {:induction false} BakingCanFail()
    ensures !Consistent(Baked([Binding("Foo", 1), Binding("Foo", 2), Binding("Foo1", 3)]))
  {
    var fs: seq<Flag> := [Binding("Foo", 1), Binding("Foo", 2), Binding("Foo1", 3)];
    assert fs[0].name == fs[1].name == "Foo" && fs[0].value != fs[1].value;
    assert Conflicted(fs, "Foo") && !Conflicted(fs, "Foo1");
    assert Decimal(1) == "1" && "Foo" + "1" == "Foo1";
    assert Baked(fs)[0] == Binding("Foo1", 1) && Baked(fs)[2] == Binding("Foo1", 3);
  }

  // ---------------------------------------------------------------- the flags of a baked type

  lemma {:induction false} FlagsOfBaked(fs: seq<Flag>, ms: seq<Member>)
    ensures FlagsOf(BakedMembers(fs, ms)) == Renamed(fs, FlagsOf(ms))
    decreases |ms|
  {
    if ms != [] {
      var init, m := ms[..|ms| - 1], ms[|ms| - 1];
      FlagsOfBaked(fs, init);
      assert BakedMembers(fs, ms)[..|ms| - 1] == BakedMembers(fs, init);
      assert Renamed(fs, FlagsOf(init) + FlagOf(m)) == Renamed(fs, FlagsOf(init)) + Renamed(fs, FlagOf(m));
      assert FlagOf(BakedMember(fs, m)) == Renamed(fs, FlagOf(m));
    }
  }

  lemma {:induction false} AllMembersBaked(fs: seq<Flag>, cs: seq<Constructor>)
    ensures AllMembers(BakedBy(fs, cs)) == BakedMembers(fs, AllMembers(cs))
    decreases |cs|
  {
    if cs != [] {
      var init, c := cs[..|cs| - 1], cs[|cs| - 1];
      AllMembersBaked(fs, init);
      assert BakedBy(fs, cs)[..|cs| - 1] == BakedBy(fs, init);
      assert BakedMembers(fs, AllMembers(init) + c.members) ==
             BakedMembers(fs, AllMembers(init)) + BakedMembers(fs, c.members);
    }
  }

  /** The flags of the baked type are the baked flags. */
  lemma {:induction false} TypeFlagsBaked(cs: seq<Constructor>)
    ensures TypeFlags(BakedConstructors(cs)) == Baked(TypeFlags(cs))
  {
    AllMembersBaked(TypeFlags(cs), cs);
    FlagsOfBaked(TypeFlags(cs), AllMembers(cs));
  }

  lemma {:induction false} MemberOfAll(cs: seq<Constructor>, i: nat, k: nat) returns (n: nat)
    requires i < |cs| && k < |cs[i].members|
    ensures n < |AllMembers(cs)| && AllMembers(cs)[n] == cs[i].members[k]
    decreases |cs|
  {
    var init := cs[..|cs| - 1];
    if i < |init| {
      n := MemberOfAll(init, i, k);
    } else {
      n := |AllMembers(init)| + k;
    }
  }

  lemma {:induction false} FlagOfMember(ms: seq<Member>, n: nat) returns (j: nat)
    requires n < |ms| && ms[n].presence.OnFlag?
    ensures j < |FlagsOf(ms)| && FlagsOf(ms)[j] == Binding(ms[n].presence.flagName, ms[n].presence.bit)
    decreases |ms|
  {
    var init := ms[..|ms| - 1];
    if n < |init| {
      j := FlagOfMember(init, n);
    } else {
      j := |FlagsOf(init)|;
    }
  }

  /** With consistent baked flags, the emitted name of every optional member stands for its own bit. */
  lemma {:induction false} NameMeansBit(cs: seq<Constructor>, i: nat, k: nat)
    requires Consistent(Baked(TypeFlags(cs))) && i < |cs| && k < |cs[i].members| && cs[i].members[k].presence.OnFlag?
    ensures var m := BakedConstructors(cs)[i].members[k].presence;
            Lookup(Declared(TypeFlags(BakedConstructors(cs))), m.flagName) == Some(cs[i].members[k].presence.bit)
  {
    var baked := BakedConstructors(cs);
    TypeFlagsBaked(cs);
    var n := MemberOfAll(baked, i, k);
    var j := FlagOfMember(AllMembers(baked), n);
    EveryValueRightIff(TypeFlags(baked));
  }
}
