/** Flattening nested uses of one operator into the chain of their operands. */
module PDagChain {
  import opened PDag
  import opened PDagCone

  /** The operands of the nest of equal symbols at v, left to right. */
  function ChainOf(dag: Rows, a: seq<nat>, v: nat): seq<nat>
    requires Topological(dag) && |a| == |dag| && v < |dag|
    decreases v, |dag[v]| + 1
  {
    ChainUpTo(dag, a, v, |dag[v]|)
  }

  /** Those below the first k entries. */
  function ChainUpTo(dag: Rows, a: seq<nat>, v: nat, k: nat): seq<nat>
    requires Topological(dag) && |a| == |dag| && v < |dag| && k <= |dag[v]|
    decreases v, k
  {
    if k == 0 then []
    else
      assert RowBelow(dag, v);
      ChainUpTo(dag, a, v, k - 1) + Below(dag, a, v, k - 1)
  }

  /** What entry k adds. */
  function Below(dag: Rows, a: seq<nat>, v: nat, k: nat): seq<nat>
    requires Topological(dag) && |a| == |dag| && v < |dag| && k < |dag[v]|
    decreases v, k
  {
    assert RowBelow(dag, v);
    if dag[v][k] == 0 then []
    else if a[dag[v][k] - 1] == a[v] then ChainOf(dag, a, dag[v][k] - 1)
    else [dag[v][k] - 1]
  }

  class Chain {
    var items: seq<nat>

    constructor ()
      ensures items == []
    {
      items := [];
    }
  }

  /** Appends the operands below v. */
  method CollectChain(dag: Rows, a: seq<nat>, v: nat, chain: Chain)
    requires Topological(dag) && |a| == |dag| && v < |dag|
    modifies chain
    ensures chain.items == old(chain.items) + ChainOf(dag, a, v)
    decreases v
  {
    var op := a[v];
    for k := 0 to |dag[v]|
      invariant chain.items == old(chain.items) + ChainUpTo(dag, a, v, k)
    {
      var child := dag[v][k];
      assert RowBelow(dag, v);
      if child > 0 {
        if op == a[child - 1] {
          CollectChain(dag, a, child - 1, chain);
        } else {
          chain.items := chain.items + [child - 1];
        }
      }
      assert chain.items == old(chain.items) + (ChainUpTo(dag, a, v, k) + Below(dag, a, v, k));
    }
  }

  method GetChainOfSameOperator(dag: Rows, a: seq<nat>, start: nat) returns (items: seq<nat>)
    requires Topological(dag) && |a| == |dag| && start < |dag|
    ensures items == ChainOf(dag, a, start)
  {
    var chain := new Chain();
    CollectChain(dag, a, start, chain);
    items := chain.items;
    assert [] + ChainOf(dag, a, start) == ChainOf(dag, a, start);
  }

  // --- Meaning --------------------------------------------------------------

  /** The operator applied from left to right. */
  function Fold<D>(sem: Sem<D>, y: nat, xs: seq<D>): D
    requires |xs| > 0
  {
    if |xs| == 1 then xs[0] else sem.op(y, [Fold(sem, y, xs[..|xs| - 1]), xs[|xs| - 1]])
  }

  ghost predicate Associative<D(!new)>(sem: Sem<D>, y: nat) {
    forall p: D, q: D, r: D :: sem.op(y, [sem.op(y, [p, q]), r]) == sem.op(y, [p, sem.op(y, [q, r])])
  }

  /** Every vertex with symbol y has two children. */
  predicate Binary(dag: Rows, a: seq<nat>, y: nat) {
    forall v :: 0 <= v < |dag| && v < |a| && a[v] == y ==> Children(dag[v]) == 2
  }

  lemma {:induction false} FoldConcat<D(!new)>(sem: Sem<D>, y: nat, xs: seq<D>, ys: seq<D>)
    requires Associative(sem, y) && |xs| > 0 && |ys| > 0
    ensures Fold(sem, y, xs + ys) == sem.op(y, [Fold(sem, y, xs), Fold(sem, y, ys)])
    decreases |ys|
  {
    var n := |ys| - 1;
    assert (xs + ys)[..|xs| + n] == xs + ys[..n];
    if n > 0 {
      FoldConcat(sem, y, xs, ys[..n]);
      assert sem.op(y, [sem.op(y, [Fold(sem, y, xs), Fold(sem, y, ys[..n])]), ys[n]]) ==
             sem.op(y, [Fold(sem, y, xs), sem.op(y, [Fold(sem, y, ys[..n]), ys[n]])]);
    } else {
      assert xs + ys[..n] == xs;
    }
  }

  ghost function ValuesOf<D>(sem: Sem<D>, dag: Rows, a: seq<nat>, vs: seq<nat>): (ds: seq<D>)
    requires Topological(dag) && |a| == |dag| && InRows(dag, vs)
    ensures |ds| == |vs| && forall i :: 0 <= i < |vs| ==> ds[i] == EvalAt(sem, dag, a, vs[i])
  {
    seq(|vs|, i requires 0 <= i < |vs| => EvalAt(sem, dag, a, vs[i]))
  }

  lemma ValuesConcat<D>(sem: Sem<D>, dag: Rows, a: seq<nat>, vs: seq<nat>, ws: seq<nat>)
    requires Topological(dag) && |a| == |dag| && InRows(dag, vs) && InRows(dag, ws)
    ensures InRows(dag, vs + ws)
    ensures ValuesOf(sem, dag, a, vs + ws) == ValuesOf(sem, dag, a, vs) + ValuesOf(sem, dag, a, ws)
  {
    hide EvalAt;
  }

  /** The operands come before v and carry other symbols. */
  lemma {:induction false} ChainMembers(dag: Rows, a: seq<nat>, v: nat, x: nat)
    requires Topological(dag) && |a| == |dag| && v < |dag| && x in ChainOf(dag, a, v)
    ensures x < v && a[x] != a[v]
    decreases v, |dag[v]| + 1
  {
    MembersUpTo(dag, a, v, |dag[v]|, x);
  }

  lemma {:induction false} MembersUpTo(dag: Rows, a: seq<nat>, v: nat, k: nat, x: nat)
    requires Topological(dag) && |a| == |dag| && v < |dag| && k <= |dag[v]| && x in ChainUpTo(dag, a, v, k)
    ensures x < v && a[x] != a[v]
    decreases v, k
  {
    assert RowBelow(dag, v);
    if x in ChainUpTo(dag, a, v, k - 1) {
      MembersUpTo(dag, a, v, k - 1, x);
    } else {
      assert x in Below(dag, a, v, k - 1);
      if a[dag[v][k - 1] - 1] == a[v] {
        ChainMembers(dag, a, dag[v][k - 1] - 1, x);
      }
    }
  }

  lemma ChainInRows(dag: Rows, a: seq<nat>, v: nat)
    requires Topological(dag) && |a| == |dag| && v < |dag|
    ensures InRows(dag, ChainOf(dag, a, v))
    ensures forall k :: 0 <= k <= |dag[v]| ==> InRows(dag, ChainUpTo(dag, a, v, k))
  {
    forall k | 0 <= k <= |dag[v]| ensures InRows(dag, ChainUpTo(dag, a, v, k)) {
      forall i | 0 <= i < |ChainUpTo(dag, a, v, k)| ensures ChainUpTo(dag, a, v, k)[i] < |dag| {
        MembersUpTo(dag, a, v, k, ChainUpTo(dag, a, v, k)[i]);
      }
    }
  }

  /** Flattening keeps the meaning: the value of a vertex with an associative operator is
      the operator folded over the values of its chain. */
  lemma {:induction false} ChainMeaning<D(!new)>(sem: Sem<D>, dag: Rows, a: seq<nat>, v: nat)
    requires Topological(dag) && |a| == |dag| && v < |dag|
    requires Associative(sem, a[v]) && Binary(dag, a, a[v])
    ensures InRows(dag, ChainOf(dag, a, v)) && |ChainOf(dag, a, v)| > 0
    ensures Fold(sem, a[v], ValuesOf(sem, dag, a, ChainOf(dag, a, v))) == EvalAt(sem, dag, a, v)
    decreases v, |dag[v]| + 1
  {
    hide Associative, Binary, Fold;
    ChainInRows(dag, a, v);
    MeaningUpTo(sem, dag, a, v, |dag[v]|);
    TwoChildren(dag, a, v);
    assert |Args(sem, dag, a, v, |dag[v]|)| == 2;
    FoldTwo(sem, a[v], Args(sem, dag, a, v, |dag[v]|));
  }

  lemma TwoChildren(dag: Rows, a: seq<nat>, v: nat)
    requires v < |dag| == |a| && Binary(dag, a, a[v])
    ensures Children(dag[v]) == 2
  {
  }

  lemma FoldTwo<D>(sem: Sem<D>, y: nat, xs: seq<D>)
    requires |xs| == 2
    ensures Fold(sem, y, xs) == sem.op(y, xs)
  {
    assert xs == [xs[0], xs[1]] && xs[..1] == [xs[0]];
  }

  /** The chain below the first k entries folds to what their values fold to. */
  lemma {:induction false} MeaningUpTo<D(!new)>(sem: Sem<D>, dag: Rows, a: seq<nat>, v: nat, k: nat)
    requires Topological(dag) && |a| == |dag| && v < |dag| && k <= |dag[v]|
    requires Associative(sem, a[v]) && Binary(dag, a, a[v])
    ensures InRows(dag, ChainUpTo(dag, a, v, k))
    ensures |Args(sem, dag, a, v, k)| == Connected(dag[v], k)
    ensures |ChainUpTo(dag, a, v, k)| > 0 <==> Connected(dag[v], k) > 0
    ensures Connected(dag[v], k) > 0 ==>
              Fold(sem, a[v], ValuesOf(sem, dag, a, ChainUpTo(dag, a, v, k))) ==
                  Fold(sem, a[v], Args(sem, dag, a, v, k))
    decreases v, k
  {
    hide Associative, Binary, Fold;
    ChainInRows(dag, a, v);
    if k > 0 {
      assert RowBelow(dag, v);
      MeaningUpTo(sem, dag, a, v, k - 1);
      var e := dag[v][k - 1];
      if e > 0 {
        var rest, below := ChainUpTo(dag, a, v, k - 1), Below(dag, a, v, k - 1);
        var x := EvalAt(sem, dag, a, e - 1);
        if a[e - 1] == a[v] {
          ChainMeaning(sem, dag, a, e - 1);
        } else {
          assert ValuesOf(sem, dag, a, below) == [x];
          FoldOne(sem, a[v], x);
        }
        ValuesConcat(sem, dag, a, rest, below);
        FoldOne(sem, a[v], x);
        if |rest| > 0 {
          FoldConcat(sem, a[v], ValuesOf(sem, dag, a, rest), ValuesOf(sem, dag, a, below));
          FoldConcat(sem, a[v], Args(sem, dag, a, v, k - 1), [x]);
        } else {
          assert rest + below == below && Args(sem, dag, a, v, k - 1) + [x] == [x];
        }
      } else {
        assert ChainUpTo(dag, a, v, k - 1) + [] == ChainUpTo(dag, a, v, k - 1);
        assert Args(sem, dag, a, v, k - 1) + [] == Args(sem, dag, a, v, k - 1);
      }
    }
  }

  lemma FoldOne<D>(sem: Sem<D>, y: nat, x: D)
    ensures Fold(sem, y, [x]) == x
  {
  }
}
