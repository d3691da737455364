/**
 `Generator::solveTypes`: the order in which the types of a schema are emitted, so that
 every type comes after the types of its members.
 */
module TypeOrder {

  type Name = string

  /** The types of the members of each type, by name; a name may also be native or unknown. */
  type Dependencies = Name -> seq<Name>

  ghost predicate Distinct(s: seq<Name>) {
    forall i, j :: 0 <= i < j < |s| ==> s[i] != s[j]
  }

  /** A type waits for another type that is still in the list; itself it does not wait for. */
  predicate Waits(deps: Dependencies, t: Name, open: seq<Name>) {
    exists d :: d in deps(t) && d != t && d in open
  }

  /** What was emitted, in order, and what is left of `names`. */
  ghost predicate Ordered(deps: Dependencies, names: seq<Name>, solved: seq<Name>, rest: seq<Name>) {
    && multiset(solved) + multiset(rest) == multiset(names)
    && forall i :: 0 <= i < |solved| ==> Settled(deps, names, solved, i)
  }

  /** Everything that the type at `i` depends on was emitted before it. */
  ghost predicate Settled(deps: Dependencies, names: seq<Name>, solved: seq<Name>, i: nat)
    requires i < |solved|
  {
    forall d :: d in deps(solved[i]) && d != solved[i] && d in names ==> d in solved[..i]
  }

  /** Each type that is left waits for another one that is left. */
  ghost predicate Stuck(deps: Dependencies, rest: seq<Name>) {
    forall t :: t in rest ==> Waits(deps, t, rest)
  }

  // ---------------------------------------------------------------- the loops

  /** The loop over the dependencies of one type. */
  method IsSolved(deps: Dependencies, item: Name, open: seq<Name>) returns (solved: bool)
    ensures solved == !Waits(deps, item, open)
  {
    var ds := deps(item);
    for i := 0 to |ds|
      invariant forall d :: d in ds[..i] && d != item ==> d !in open
    {
      if ds[i] != item && ds[i] in open {
        return false;
      }
    }
    assert ds[..|ds|] == ds;
    return true;
  }

  lemma {:induction false} NotOpen(names: seq<Name>, solved: seq<Name>, open: seq<Name>, d: Name)
    requires multiset(solved) + multiset(open) == multiset(names) && d in names && d !in open
    ensures d in solved
  {
    assert multiset(names)[d] > 0 && multiset(open)[d] == 0;
    assert multiset(solved)[d] > 0;
  }

  lemma {:induction false} Erased(solved: seq<Name>, open: seq<Name>, i: nat)
    requires i < |open|
    ensures multiset(solved + [open[i]]) + multiset(open[..i] + open[i + 1..]) == multiset(solved) + multiset(open)
  {
    assert open == open[..i] + [open[i]] + open[i + 1..];
  }

  /** The type at `i` is not waiting: it is emitted and erased from the list. */
  lemma {:induction false} EmitKeeps(deps: Dependencies, names: seq<Name>, solved: seq<Name>, open: seq<Name>, i: nat)
    requires i < |open| && Ordered(deps, names, solved, open) && !Waits(deps, open[i], open)
    ensures Ordered(deps, names, solved + [open[i]], open[..i] + open[i + 1..])
  {
    Erased(solved, open, i);
    var solved' := solved + [open[i]];
    forall k | 0 <= k < |solved'| ensures Settled(deps, names, solved', k) {
      forall d | d in deps(solved'[k]) && d != solved'[k] && d in names ensures d in solved'[..k] {
        if k < |solved| {
          assert Settled(deps, names, solved, k);
          assert solved'[..k] == solved[..k];
        } else {
          NotOpen(names, solved, open, d);
          assert solved'[..k] == solved;
        }
      }
    }
  }

  /** One pass over the list; `stuck` if it could not emit anything. */
  method SolvePass(deps: Dependencies, ghost names: seq<Name>, solved: seq<Name>, open: seq<Name>)
    returns (solved': seq<Name>, open': seq<Name>, hasSolved: bool)
    requires Ordered(deps, names, solved, open)
    ensures Ordered(deps, names, solved', open')
    ensures hasSolved ==> |open'| < |open|
    ensures !hasSolved ==> solved' == solved && open' == open && Stuck(deps, open)
  {
    solved', open', hasSolved := solved, open, false;
    var current := 0;
    while current != |open'|
      invariant 0 <= current <= |open'| && Ordered(deps, names, solved', open')
      invariant if hasSolved then |open'| < |open| else solved' == solved && open' == open
      invariant !hasSolved ==> forall j :: 0 <= j < current ==> Waits(deps, open[j], open)
      decreases |open'| - current
    {
      var item := open'[current];
      var isSolved := IsSolved(deps, item, open');
      if isSolved {
        EmitKeeps(deps, names, solved', open', current);
        solved' := solved' + [item];
        hasSolved := true;
        open' := open'[..current] + open'[current + 1..];
      } else {
        current := current + 1;
      }
    }
  }

  method SolveTypes(deps: Dependencies, names: seq<Name>) returns (solved: seq<Name>, rest: seq<Name>)
    ensures Ordered(deps, names, solved, rest) && Stuck(deps, rest)
  {
    solved, rest := [], names;
    while rest != []
      invariant Ordered(deps, names, solved, rest)
      decreases |rest|
    {
      var hasSolved;
      solved, rest, hasSolved := SolvePass(deps, names, solved, rest);
      if !hasSolved {
        break;
      }
    }
  }

  // ---------------------------------------------------------------- what the order means

  lemma {:induction false} Counted(s: seq<Name>, t: Name, i: nat, j: nat)
    requires i < j < |s| && s[i] == t == s[j]
    ensures multiset(s)[t] >= 2
  {
    assert s == s[..j] + [s[j]] + s[j + 1..];
    assert t in s[..j];
    assert multiset(s[..j])[t] >= 1;
  }

  lemma {:induction false} CountedOnce(s: seq<Name>, t: Name)
    requires Distinct(s)
    ensures multiset(s)[t] <= 1
  {
    if t in s {
      var i :| 0 <= i < |s| && s[i] == t;
      assert s == s[..i] + [s[i]] + s[i + 1..];
      assert t !in s[..i] && t !in s[i + 1..];
      assert multiset(s[..i])[t] == 0 && multiset(s[i + 1..])[t] == 0;
    }
  }

  /** Every type is emitted once or left over, never both. */
  lemma {:induction false} EmittedOnce(deps: Dependencies, names: seq<Name>, solved: seq<Name>, rest: seq<Name>)
    requires Distinct(names) && Ordered(deps, names, solved, rest)
    ensures Distinct(solved)
    ensures forall t :: t in names <==> t in solved || t in rest
    ensures forall t :: t in solved ==> t !in rest
  {
    forall i, j | 0 <= i < j < |solved| ensures solved[i] != solved[j] {
      if solved[i] == solved[j] {
        CountedOnce(names, solved[i]);
        assert multiset(solved)[solved[i]] + multiset(rest)[solved[i]] == multiset(names)[solved[i]];
        Counted(solved, solved[i], i, j);
      }
    }
    forall t ensures t in names <==> t in solved || t in rest {
      assert t in multiset(names) <==> t in multiset(solved) + multiset(rest);
    }
    forall t | t in solved ensures t !in rest {
      CountedOnce(names, t);
      assert (multiset(solved) + multiset(rest))[t] <= 1;
      assert multiset(solved)[t] >= 1;
    }
  }

  /** A set of types each of which depends on another one of the set. */
  ghost predicate Circular(deps: Dependencies, names: seq<Name>, s: set<Name>) {
    && (forall t :: t in s ==> t in names)
    && (forall t :: t in s ==> DependsInto(deps, t, s))
  }

  predicate DependsInto(deps: Dependencies, t: Name, s: set<Name>) {
    exists i :: 0 <= i < |deps(t)| && deps(t)[i] != t && deps(t)[i] in s
  }

  lemma {:induction false} Dependence(deps: Dependencies, t: Name, s: set<Name>) returns (d: Name)
    requires DependsInto(deps, t, s)
    ensures d in deps(t) && d != t && d in s
  {
    var i :| 0 <= i < |deps(t)| && deps(t)[i] != t && deps(t)[i] in s;
    d := deps(t)[i];
  }

  /** No type of such a set is ever emitted. */
  lemma {:induction false} CircularNotEmitted(
    deps: Dependencies, names: seq<Name>, solved: seq<Name>, rest: seq<Name>, s: set<Name>, i: nat)
    requires Ordered(deps, names, solved, rest) && Circular(deps, names, s) && i < |solved|
    ensures solved[i] !in s
    decreases i
  {
    if solved[i] in s {
      assert DependsInto(deps, solved[i], s);
      var d := Dependence(deps, solved[i], s);
      assert Settled(deps, names, solved, i);
      var j :| 0 <= j < i && solved[j] == d;
      CircularNotEmitted(deps, names, solved, rest, s, j);
    }
  }

  /** What is left over is the largest circular set of types. */
  lemma {:induction false} LeftoverIsLargest(deps: Dependencies, names: seq<Name>, solved: seq<Name>, rest: seq<Name>)
    requires Distinct(names) && Ordered(deps, names, solved, rest) && Stuck(deps, rest)
    ensures Circular(deps, names, set t | t in rest)
    ensures forall s :: Circular(deps, names, s) ==> forall t :: t in s ==> t in rest
  {
    EmittedOnce(deps, names, solved, rest);
    var left := set t | t in rest;
    forall t | t in left ensures DependsInto(deps, t, left) {
      assert Waits(deps, t, rest);
      var d :| d in deps(t) && d != t && d in rest;
      var i :| 0 <= i < |deps(t)| && deps(t)[i] == d;
    }
    forall s | Circular(deps, names, s) ensures forall t :: t in s ==> t in rest {
      forall t | t in s ensures t in rest {
        if t in solved {
          var i :| 0 <= i < |solved| && solved[i] == t;
          CircularNotEmitted(deps, names, solved, rest, s, i);
        }
      }
    }
  }

  /** The dependencies go down in `rank`: there is no cycle, apart from types that name themselves. */
  ghost predicate Ranked(deps: Dependencies, names: seq<Name>, rank: Name -> nat) {
    forall t, d :: t in names && d in deps(t) && d in names && d != t ==> rank(d) < rank(t)
  }

  lemma {:induction false} RankedNotStuck(
    deps: Dependencies, names: seq<Name>, rank: Name -> nat, rest: seq<Name>, t: Name)
    requires Ranked(deps, names, rank) && Stuck(deps, rest) && (forall x :: x in rest ==> x in names) && t in rest
    ensures false
    decreases rank(t)
  {
    assert Waits(deps, t, rest);
    var d :| d in deps(t) && d != t && d in rest;
    RankedNotStuck(deps, names, rank, rest, d);
  }

  function IndexOf(s: seq<Name>, t: Name): (i: nat)
    ensures t in s ==> i < |s| && s[i] == t
    ensures forall j :: 0 <= j < i && j < |s| ==> s[j] != t
  {
    if s == [] || s[0] == t then 0 else 1 + IndexOf(s[1..], t)
  }

  /** Every type is emitted if and only if the dependencies have no cycle. */
  lemma {:induction false} AllEmittedIff(deps: Dependencies, names: seq<Name>, solved: seq<Name>, rest: seq<Name>)
    requires Distinct(names) && Ordered(deps, names, solved, rest) && Stuck(deps, rest)
    ensures rest == [] <==> exists rank: Name -> nat :: Ranked(deps, names, rank)
  {
    EmittedOnce(deps, names, solved, rest);
    if rest == [] {
      var rank := (t: Name) => IndexOf(solved, t);
      forall t, d | t in names && d in deps(t) && d in names && d != t ensures rank(d) < rank(t) {
        var i := IndexOf(solved, t);
        assert Settled(deps, names, solved, i);
        var j :| 0 <= j < i && solved[j] == d;
      }
      assert Ranked(deps, names, rank);
    } else if rank: Name -> nat :| Ranked(deps, names, rank) {
      RankedNotStuck(deps, names, rank, rest, rest[0]);
    }
  }
}
