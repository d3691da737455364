/** Tables of names, in which the first entry of a name counts. */
module Bindings {
  import opened Options

  type Name = string

  datatype Binding<T> = Binding(name: Name, value: T)

  function Lookup<T>(table: seq<Binding<T>>, name: Name): Option<T> {
    if table == [] then None
    else if table[0].name == name then Some(table[0].value)
    else Lookup(table[1..], name)
  }

  predicate Declares<T>(table: seq<Binding<T>>, name: Name) {
    Lookup(table, name).Some?
  }

  /** The first entry of each name. */
  function Declared<T>(bs: seq<Binding<T>>): seq<Binding<T>> {
    if bs == [] then []
    else
      var before, b := Declared(bs[..|bs| - 1]), bs[|bs| - 1];
      if Declares(before, b.name) then before else before + [b]
  }

  /** Every name stands for one value. */
  ghost predicate Consistent<T>(bs: seq<Binding<T>>) {
    forall i, j :: 0 <= i < |bs| && 0 <= j < |bs| && bs[i].name == bs[j].name ==> bs[i].value == bs[j].value
  }

  lemma {:induction false} LookupAppend<T>(table: seq<Binding<T>>, b: Binding<T>, name: Name)
    ensures Lookup(table + [b], name) ==
            if Declares(table, name) then Lookup(table, name) else if b.name == name then Some(b.value) else None
  {
    if table != [] {
      assert (table + [b])[1..] == table[1..] + [b];
      LookupAppend(table[1..], b, name);
    }
  }

  /** Leaving out later entries does not change what a name stands for. */
  lemma {:induction false} DeclaredSame<T>(bs: seq<Binding<T>>, name: Name)
    ensures Lookup(Declared(bs), name) == Lookup(bs, name)
    decreases |bs|
  {
    if bs != [] {
      var init, b := bs[..|bs| - 1], bs[|bs| - 1];
      DeclaredSame(init, name);
      DeclaredSame(init, b.name);
      assert bs == init + [b];
      LookupAppend(init, b, name);
      LookupAppend(Declared(init), b, name);
    }
  }

  /** A name stands for the value of its first entry. */
  lemma {:induction false} LookupFirst<T>(bs: seq<Binding<T>>, name: Name)
    ensures match Lookup(bs, name)
            case None => forall i :: 0 <= i < |bs| ==> bs[i].name != name
            case Some(v) => exists i :: 0 <= i < |bs| && bs[i] == Binding(name, v)
  {
    if bs != [] {
      if bs[0].name == name {
        assert bs[0] == Binding(name, bs[0].value);
      } else {
        LookupFirst(bs[1..], name);
        if Lookup(bs[1..], name).Some? {
          var i :| 0 <= i < |bs[1..]| && bs[1..][i] == Binding(name, Lookup(bs[1..], name).value);
          assert bs[i + 1] == bs[1..][i];
        } else {
          assert forall i :: 0 < i < |bs| ==> bs[i] == bs[1..][i - 1];
        }
      }
    }
  }

  ghost predicate DistinctNames<T>(table: seq<Binding<T>>) {
    forall i, j :: 0 <= i < j < |table| ==> table[i].name != table[j].name
  }

  lemma {:induction false} DistinctAppend<T>(table: seq<Binding<T>>, b: Binding<T>)
    requires DistinctNames(table) && !Declares(table, b.name)
    ensures DistinctNames(table + [b])
  {
    LookupFirst(table, b.name);
    assert Lookup(table, b.name) == None;
    assert forall i :: 0 <= i < |table| ==> (table + [b])[i] == table[i];
  }

  /** Each name is declared once. */
  lemma {:induction false} DeclaredOnce<T>(bs: seq<Binding<T>>)
    ensures DistinctNames(Declared(bs))
    decreases |bs|
  {
    if bs != [] {
      var init, b := bs[..|bs| - 1], bs[|bs| - 1];
      DeclaredOnce(init);
      if !Declares(Declared(init), b.name) {
        DistinctAppend(Declared(init), b);
      }
    }
  }

  /** Every entry has its own value in the table if and only if no name stands for two values. */
  lemma {:induction false} EveryValueRightIff<T>(bs: seq<Binding<T>>)
    ensures Consistent(bs) <==> forall i :: 0 <= i < |bs| ==> Lookup(Declared(bs), bs[i].name) == Some(bs[i].value)
  {
    forall i | 0 <= i < |bs|
      ensures Lookup(Declared(bs), bs[i].name).Some?
      ensures Consistent(bs) ==> Lookup(Declared(bs), bs[i].name) == Some(bs[i].value)
    {
      DeclaredSame(bs, bs[i].name);
      LookupFirst(bs, bs[i].name);
    }
  }
}
