/** Building the network of a candidate: leaves first, then the gates the last vertex
    reaches, each once, with what was built kept for reuse. */
module PDagBuild {
  import opened PDag
  import opened PDagCone
  import opened PDagSpace

  /** One call of a node constructor. */
  datatype Call<D> = Call(symbol: nat, children: seq<D>)

  datatype Option<D> = None | Some(value: D)

  /** The connected entries among the first k. */
  function NonZeros(row: seq<nat>, k: nat): (r: seq<nat>)
    requires k <= |row|
    ensures |r| <= k
  {
    if k == 0 then [] else NonZeros(row, k - 1) + (if row[k - 1] > 0 then [row[k - 1]] else [])
  }

  predicate Gate(dag: Rows, v: nat) {
    v < |dag| && NonZeros(dag[v], |dag[v]|) != []
  }

  /** More children than the builder supports. */
  predicate Wide(dag: Rows, v: nat) {
    v < |dag| && |NonZeros(dag[v], |dag[v]|)| > 3
  }

  ghost predicate WideIn(dag: Rows, vs: set<nat>) {
    exists v :: v in vs && Wide(dag, v)
  }

  function RowOf(dag: Rows, v: nat): seq<nat> {
    if v < |dag| then dag[v] else []
  }

  lemma WideChildren(dag: Rows, vs: set<nat>)
    ensures WideIn(dag, vs) <==> exists v :: v in vs && Children(RowOf(dag, v)) > 3
  {
    forall v: nat ensures Wide(dag, v) <==> Children(RowOf(dag, v)) > 3 {
      NonZeroCount(RowOf(dag, v), |RowOf(dag, v)|);
    }
  }

  lemma {:induction false} NonZeroCount(row: seq<nat>, k: nat)
    requires k <= |row|
    ensures |NonZeros(row, k)| == Connected(row, k)
  {
    if k > 0 {
      NonZeroCount(row, k - 1);
    }
  }

  /** The call that builds vertex v, by plain evaluation. */
  ghost function CallOf<D>(sem: Sem<D>, dag: Rows, a: seq<nat>, v: nat): Call<D>
    requires Topological(dag) && |a| == |dag| && v < |dag|
  {
    Call(a[v], Args(sem, dag, a, v, |dag[v]|))
  }

  ghost function CallsOf<D>(sem: Sem<D>, dag: Rows, a: seq<nat>, vs: seq<nat>): (cs: seq<Call<D>>)
    requires Topological(dag) && |a| == |dag| && InRows(dag, vs)
    ensures |cs| == |vs| && forall i :: 0 <= i < |vs| ==> cs[i] == CallOf(sem, dag, a, vs[i])
  {
    seq(|vs|, i requires 0 <= i < |vs| => CallOf(sem, dag, a, vs[i]))
  }

  /** The calls for the leaves, from the last symbol to the first: the same for every
      candidate. */
  function LeafCalls<D>(symbols: seq<Symbol>, k: nat): seq<Call<D>>
    requires k <= |symbols|
    decreases |symbols| - k
  {
    if k == |symbols| then []
    else LeafCalls(symbols, k + 1) + (if symbols[k].numChildren == 0 then [Call(k, [])] else [])
  }

  /** They are one call without children for each leaf symbol, in descending order. */
  lemma {:induction false} LeafCallsExactly<D>(symbols: seq<Symbol>, k: nat)
    requires k <= |symbols|
    ensures var cs := LeafCalls<D>(symbols, k);
            && (forall i :: 0 <= i < |cs| ==> k <= cs[i].symbol < |symbols| && cs[i].children == [])
            && (forall i, j :: 0 <= i < j < |cs| ==> cs[i].symbol > cs[j].symbol)
            && (forall y: nat :: Call(y, []) in cs <==> k <= y < |symbols| && symbols[y].numChildren == 0)
    decreases |symbols| - k
  {
    if k < |symbols| {
      LeafCallsExactly<D>(symbols, k + 1);
      var later := LeafCalls<D>(symbols, k + 1);
      assert symbols[k].numChildren == 0 ==> LeafCalls<D>(symbols, k) == later + [Call(k, [])];
    }
  }

  ghost predicate Distinct(vs: seq<nat>) {
    forall i, j :: 0 <= i < j < |vs| ==> vs[i] != vs[j]
  }

  /** The gates that v reads are among vs. */
  ghost predicate ReadsIn(dag: Rows, v: nat, vs: seq<nat>) {
    v < |dag| && forall k :: 0 <= k < |dag[v]| && dag[v][k] > 0 && Gate(dag, dag[v][k] - 1) ==> dag[v][k] - 1 in vs
  }

  /** Every vertex comes after the gates that it reads. */
  ghost predicate ChildrenFirst(dag: Rows, vs: seq<nat>) {
    forall i :: 0 <= i < |vs| ==> ReadsIn(dag, vs[i], vs[..i])
  }

  lemma OneMoreFirst(dag: Rows, vs: seq<nat>, v: nat)
    requires ChildrenFirst(dag, vs) && ReadsIn(dag, v, vs)
    ensures ChildrenFirst(dag, vs + [v])
  {
    hide ReadsIn;
    forall i | 0 <= i < |vs + [v]| ensures ReadsIn(dag, (vs + [v])[i], (vs + [v])[..i]) {
      assert (vs + [v])[..i] == vs[..i];
      if i == |vs| {
        assert vs[..i] == vs;
      }
    }
  }

  /** Everything in the cone of v is among vs. */
  ghost predicate ConeIn(dag: Rows, v: nat, vs: set<nat>) {
    Topological(dag) && v < |dag| && Cone(dag, v) <= vs
  }

  ghost predicate KeptRight<D>(sem: Sem<D>, dag: Rows, a: seq<nat>, kept: map<nat, D>, v: nat) {
    && Topological(dag) && |a| == |dag| && v < |dag| && v in kept
    && kept[v] == EvalAt(sem, dag, a, v) && ConeIn(dag, v, kept.Keys) && !Wide(dag, v)
  }

  /** What is kept is right, and the vertices called for are among it, gates included. */
  ghost predicate Consistent<D>(sem: Sem<D>, dag: Rows, a: seq<nat>, symbols: seq<Symbol>,
                                leaves: map<nat, D>, kept: map<nat, D>, built: seq<nat>) {
    && Topological(dag) && |a| == |dag| && InRows(dag, built) && Distinct(built) && ChildrenFirst(dag, built)
    && (forall y :: y in leaves ==> leaves[y] == sem.op(y, []))
    && (forall y: nat :: y < |symbols| && symbols[y].numChildren == 0 ==> y in leaves)
    && (forall v :: v in kept ==> KeptRight(sem, dag, a, kept, v))
    && (forall v :: v in kept && Gate(dag, v) ==> v in built)
    && (forall v :: v in built ==> v in kept && CalledFor(dag, a, symbols, v))
  }

  /** A gate, or an end vertex whose symbol is no leaf symbol. */
  ghost predicate CalledFor(dag: Rows, a: seq<nat>, symbols: seq<Symbol>, v: nat) {
    Gate(dag, v) || (v < |a| && !(a[v] < |symbols| && symbols[a[v]].numChildren == 0))
  }

  /** The values of the children c - 1. */
  ghost function ValuesOf<D>(sem: Sem<D>, dag: Rows, a: seq<nat>, cs: seq<nat>): (vs: seq<D>)
    requires Topological(dag) && |a| == |dag| && forall i :: 0 <= i < |cs| ==> 1 <= cs[i] <= |dag|
    ensures |vs| == |cs| && forall i :: 0 <= i < |cs| ==> vs[i] == EvalAt(sem, dag, a, cs[i] - 1)
  {
    seq(|cs|, i requires 0 <= i < |cs| => EvalAt(sem, dag, a, cs[i] - 1))
  }

  lemma {:induction false} ArgsAreValues<D>(sem: Sem<D>, dag: Rows, a: seq<nat>, v: nat, k: nat)
    requires Topological(dag) && |a| == |dag| && v < |dag| && k <= |dag[v]|
    ensures forall i :: 0 <= i < |NonZeros(dag[v], k)| ==> 1 <= NonZeros(dag[v], k)[i] <= v
    ensures Args(sem, dag, a, v, k) == ValuesOf(sem, dag, a, NonZeros(dag[v], k))
    decreases k
  {
    if k > 0 {
      assert RowBelow(dag, v);
      ArgsAreValues(sem, dag, a, v, k - 1);
    }
  }

  /** The gates among the kept children have been called for. */
  lemma ReadsKept<D>(sem: Sem<D>, dag: Rows, a: seq<nat>, symbols: seq<Symbol>,
                     leaves: map<nat, D>, kept: map<nat, D>, built: seq<nat>, v: nat)
    requires Consistent(sem, dag, a, symbols, leaves, kept, built) && v < |dag|
    requires ConeOf(dag, v, |dag[v]|) <= kept.Keys
    ensures ReadsIn(dag, v, built) && ChildrenFirst(dag, built)
  {
    hide EvalAt, Wide, CalledFor, KeptRight, ChildrenFirst, Gate;
    forall k | 0 <= k < |dag[v]| && dag[v][k] > 0 && Gate(dag, dag[v][k] - 1) ensures dag[v][k] - 1 in built {
      ConeOfChild(dag, v, |dag[v]|, k);
      assert dag[v][k] - 1 in Cone(dag, dag[v][k] - 1);
      assert dag[v][k] - 1 in kept.Keys;
    }
  }

  /** Once all children are kept, so is the vertex with its own call. */
  lemma AddVertex<D>(sem: Sem<D>, dag: Rows, a: seq<nat>, symbols: seq<Symbol>,
                     leaves: map<nat, D>, kept: map<nat, D>, built: seq<nat>, v: nat)
    requires Consistent(sem, dag, a, symbols, leaves, kept, built) && v < |dag| && v !in kept && !Wide(dag, v)
    requires ConeOf(dag, v, |dag[v]|) <= kept.Keys
    ensures var kept' := kept[v := EvalAt(sem, dag, a, v)];
            && kept'.Keys == kept.Keys + Cone(dag, v)
            && (CalledFor(dag, a, symbols, v) ==> Consistent(sem, dag, a, symbols, leaves, kept', built + [v]))
            && (!Gate(dag, v) ==> Consistent(sem, dag, a, symbols, leaves, kept', built))
  {
    hide EvalAt, Wide, Gate, CalledFor, ChildrenFirst, ReadsIn;
    ReadsKept(sem, dag, a, symbols, leaves, kept, built, v);
    OneMoreFirst(dag, built, v);
    var kept' := kept[v := EvalAt(sem, dag, a, v)];
    assert kept'.Keys == kept.Keys + {v};
    forall w | w in kept' ensures KeptRight(sem, dag, a, kept', w) {
      assert w != v ==> KeptRight(sem, dag, a, kept, w);
    }
  }

  lemma Bounds<D>(sem: Sem<D>, dag: Rows, a: seq<nat>, symbols: seq<Symbol>,
                  leaves: map<nat, D>, kept: map<nat, D>, built: seq<nat>)
    requires Consistent(sem, dag, a, symbols, leaves, kept, built)
    ensures Topological(dag) && |a| == |dag| && InRows(dag, built)
  {
  }

  lemma Earlier(dag: Rows, v: nat)
    requires Topological(dag) && v < |dag|
    ensures RowBelow(dag, v)
  {
  }

  /** A vertex is built from the values of its connected entries. */
  lemma Shape<D>(sem: Sem<D>, dag: Rows, a: seq<nat>, symbols: seq<Symbol>, v: nat)
    requires Topological(dag) && |a| == |dag| && v < |dag|
    ensures var cs := NonZeros(dag[v], |dag[v]|);
            && (forall i :: 0 <= i < |cs| ==> 1 <= cs[i] <= |dag|)
            && CallOf(sem, dag, a, v) == Call(a[v], ValuesOf(sem, dag, a, cs))
            && EvalAt(sem, dag, a, v) == sem.op(a[v], ValuesOf(sem, dag, a, cs))
            && (Gate(dag, v) <==> |cs| > 0) && (Wide(dag, v) <==> |cs| > 3)
            && (|cs| > 0 ==> CalledFor(dag, a, symbols, v))
  {
    ArgsAreValues(sem, dag, a, v, |dag[v]|);
  }

  /** An end vertex without a leaf node gets a call of its own, and its node is kept. */
  lemma LeafLookup<D>(sem: Sem<D>, dag: Rows, a: seq<nat>, symbols: seq<Symbol>,
                      leaves: map<nat, D>, kept: map<nat, D>, built: seq<nat>, v: nat)
    requires Consistent(sem, dag, a, symbols, leaves, kept, built) && v < |dag|
    ensures a[v] in leaves ==> leaves[a[v]] == sem.op(a[v], [])
    ensures a[v] !in leaves ==> CalledFor(dag, a, symbols, v)
    ensures Consistent(sem, dag, a, symbols, leaves[a[v] := sem.op(a[v], [])], kept, built)
  {
    hide KeptRight;
  }

  lemma NoneWide<D>(sem: Sem<D>, dag: Rows, a: seq<nat>, kept: map<nat, D>, vs: set<nat>)
    requires forall v :: v in kept ==> KeptRight(sem, dag, a, kept, v)
    requires vs <= kept.Keys
    ensures !WideIn(dag, vs)
  {
    hide Wide, ConeIn, EvalAt;
    assert forall v :: v in vs ==> v in kept.Keys;
  }

  lemma OneMoreCall<D>(sem: Sem<D>, dag: Rows, a: seq<nat>, leaves: seq<Call<D>>, built: seq<nat>, v: nat)
    requires Topological(dag) && |a| == |dag| && InRows(dag, built) && v < |dag|
    ensures leaves + CallsOf(sem, dag, a, built + [v]) ==
              leaves + CallsOf(sem, dag, a, built) + [CallOf(sem, dag, a, v)]
  {
    hide CallOf;
  }

  lemma {:induction false} NonZeroAt(row: seq<nat>, k: nat, i: nat) returns (l: nat)
    requires k <= |row| && i < |NonZeros(row, k)|
    ensures l < k && row[l] == NonZeros(row, k)[i] > 0
  {
    if i < |NonZeros(row, k - 1)| {
      l := NonZeroAt(row, k - 1, i);
    } else {
      l := k - 1;
    }
  }

  class Builder<D> {
    const sem: Sem<D>
    const symbols: seq<Symbol>
    var leafNodes: map<nat, D>
    var subComponents: map<nat, D>
    var calls: seq<Call<D>>
    ghost var built: seq<nat>

    constructor (sem: Sem<D>, symbols: seq<Symbol>)
      ensures this.sem == sem && this.symbols == symbols
      ensures leafNodes == map[] && subComponents == map[] && calls == [] && built == []
    {
      this.sem, this.symbols := sem, symbols;
      leafNodes, subComponents, calls, built := map[], map[], [], [];
    }

    ghost predicate Inv(dag: Rows, a: seq<nat>)
      reads this
    {
      && Consistent(sem, dag, a, symbols, leafNodes, subComponents, built)
      && calls == LeafCalls(symbols, 0) + CallsOf(sem, dag, a, built)
    }

    method Construct(symbol: nat, children: seq<D>) returns (node: D)
      modifies `calls
      ensures node == sem.op(symbol, children) && calls == old(calls) + [Call(symbol, children)]
    {
      calls := calls + [Call(symbol, children)];
      node := sem.op(symbol, children);
    }

    /** Builds vertex `index` unless it is kept. */
    method CreateNode(dag: Rows, a: seq<nat>, index: nat) returns (r: Option<D>)
      requires Inv(dag, a) && index < |dag|
      modifies this
      ensures r.None? ==> WideIn(dag, Cone(dag, index))
      ensures r.Some? ==> Inv(dag, a) && r.value == EvalAt(sem, dag, a, index)
      ensures r.Some? ==> subComponents.Keys == old(subComponents.Keys) + Cone(dag, index)
      decreases index, 1
    {
      if index in subComponents {
        assert KeptRight(sem, dag, a, subComponents, index);
        return Some(subComponents[index]);
      }
      var ok, nonZeroNodes := CreateChildren(dag, a, index);
      if !ok {
        return None;
      }
      if index in ConeOf(dag, index, |dag[index]|) {
        ConeOfBelow(dag, index, |dag[index]|, index);
      }
      r := CreateFrom(dag, a, index, nonZeroNodes);
    }

    /** Builds the children of vertex `index`. */
    method CreateChildren(dag: Rows, a: seq<nat>, index: nat) returns (ok: bool, nonZeroNodes: seq<nat>)
      requires Inv(dag, a) && index < |dag|
      modifies this
      ensures !ok ==> WideIn(dag, ConeOf(dag, index, |dag[index]|))
      ensures ok ==> Inv(dag, a) && nonZeroNodes == NonZeros(dag[index], |dag[index]|)
      ensures ok ==> subComponents.Keys == old(subComponents.Keys) + ConeOf(dag, index, |dag[index]|)
      decreases index, 0
    {
      hide Consistent, EvalAt, CallsOf, LeafCalls, Cone, Wide, Topological;
      var node := dag[index];
      nonZeroNodes := [];
      Bounds(sem, dag, a, symbols, leafNodes, subComponents, built);
      assert RowBelow(dag, index) by { Earlier(dag, index); }
      for k := 0 to |node|
        invariant Inv(dag, a) && nonZeroNodes == NonZeros(node, k)
        invariant subComponents.Keys == old(subComponents.Keys) + ConeOf(dag, index, k)
      {
        var input := node[k];
        if input != 0 {
          nonZeroNodes := nonZeroNodes + [input];
          var child := CreateNode(dag, a, input - 1);
          if child.None? {
            ConeOfChild(dag, index, |node|, k);
            return false, nonZeroNodes;
          }
        }
      }
      ok := true;
    }

    /** Builds vertex `index` from its children. */
    method CreateFrom(dag: Rows, a: seq<nat>, index: nat, nonZeroNodes: seq<nat>) returns (r: Option<D>)
      requires Inv(dag, a) && index < |dag| && index !in subComponents
      requires nonZeroNodes == NonZeros(dag[index], |dag[index]|)
      requires ConeOf(dag, index, |dag[index]|) <= subComponents.Keys
      modifies this
      ensures r.None? ==> Wide(dag, index)
      ensures r.Some? ==> Inv(dag, a) && r.value == EvalAt(sem, dag, a, index)
      ensures r.Some? ==> subComponents.Keys == old(subComponents.Keys) + Cone(dag, index)
    {
      hide Consistent, CalledFor, EvalAt, CallOf, NonZeros, Cone, ConeOf, Gate, Wide, Topological;
      Bounds(sem, dag, a, symbols, leafNodes, subComponents, built);
      Shape(sem, dag, a, symbols, index);
      OneMoreCall(sem, dag, a, LeafCalls(symbols, 0), built, index);
      var formula: D;
      if |nonZeroNodes| == 0 {
        assert ValuesOf(sem, dag, a, nonZeroNodes) == [];
        LeafLookup(sem, dag, a, symbols, leafNodes, subComponents, built, index);
        if a[index] in leafNodes {
          formula := leafNodes[a[index]];
          AddVertex(sem, dag, a, symbols, leafNodes, subComponents, built, index);
        } else {
          formula := Construct(a[index], []);
          leafNodes := leafNodes[a[index] := formula];
          AddVertex(sem, dag, a, symbols, leafNodes, subComponents, built, index);
          built := built + [index];
        }
      } else if |nonZeroNodes| == 1 {
        var child := Kept(dag, a, nonZeroNodes, 0, index);
        assert ValuesOf(sem, dag, a, nonZeroNodes) == [child];
        formula := Construct(a[index], [child]);
      } else if |nonZeroNodes| == 2 {
        var child0 := Kept(dag, a, nonZeroNodes, 0, index);
        var child1 := Kept(dag, a, nonZeroNodes, 1, index);
        assert ValuesOf(sem, dag, a, nonZeroNodes) == [child0, child1];
        formula := Construct(a[index], [child0, child1]);
      } else if |nonZeroNodes| == 3 {
        var child0 := Kept(dag, a, nonZeroNodes, 0, index);
        var child1 := Kept(dag, a, nonZeroNodes, 1, index);
        var child2 := Kept(dag, a, nonZeroNodes, 2, index);
        assert ValuesOf(sem, dag, a, nonZeroNodes) == [child0, child1, child2];
        formula := Construct(a[index], [child0, child1, child2]);
      } else {
        return None;
      }
      if |nonZeroNodes| > 0 {
        AddVertex(sem, dag, a, symbols, leafNodes, subComponents, built, index);
        built := built + [index];
      }
      subComponents := subComponents[index := formula];
      r := Some(formula);
    }

    /** The node kept for child i. */
    method Kept(dag: Rows, a: seq<nat>, nonZeroNodes: seq<nat>, i: nat, ghost index: nat) returns (node: D)
      requires Inv(dag, a) && index < |dag| && i < |nonZeroNodes|
      requires nonZeroNodes == NonZeros(dag[index], |dag[index]|)
      requires ConeOf(dag, index, |dag[index]|) <= subComponents.Keys
      ensures 1 <= nonZeroNodes[i] <= |dag| && node == EvalAt(sem, dag, a, nonZeroNodes[i] - 1)
    {
      ghost var l := NonZeroAt(dag[index], |dag[index]|, i);
      ConeOfChild(dag, index, |dag[index]|, l);
      assert nonZeroNodes[i] - 1 in Cone(dag, nonZeroNodes[i] - 1);
      assert KeptRight(sem, dag, a, subComponents, nonZeroNodes[i] - 1);
      node := subComponents[nonZeroNodes[i] - 1];
    }

    /** Builds the network of a candidate in an empty store. */
    method ToEnumerationType(dag: Rows, a: seq<nat>) returns (r: Option<D>)
      requires Topological(dag) && |a| == |dag| > 0
      modifies this
      ensures r.None? <==> exists v :: v in Cone(dag, |dag| - 1) && Children(RowOf(dag, v)) > 3
      ensures r.Some? ==> r.value == EvalAt(sem, dag, a, |dag| - 1)
      ensures r.Some? ==> InRows(dag, built) && calls == LeafCalls(symbols, 0) + CallsOf(sem, dag, a, built)
      ensures r.Some? ==> Distinct(built) && ChildrenFirst(dag, built)
      ensures r.Some? ==> forall v :: v in Cone(dag, |dag| - 1) && Gate(dag, v) ==> v in built
      ensures r.Some? ==> forall v :: v in built ==> v in Cone(dag, |dag| - 1) && CalledFor(dag, a, symbols, v)
    {
      hide EvalAt, Cone, Wide, WideIn, Gate, CalledFor, CallOf, Topological, Children, RowOf;
      leafNodes, subComponents, calls, built := map[], map[], [], [];
      for i := |symbols| downto 0
        invariant calls == LeafCalls(symbols, i) && subComponents == map[] && built == []
        invariant forall y :: y in leafNodes ==> leafNodes[y] == sem.op(y, [])
        invariant forall y: nat :: i <= y < |symbols| && symbols[y].numChildren == 0 ==> y in leafNodes
      {
        if symbols[i].numChildren == 0 {
          var formula := Construct(i, []);
          leafNodes := leafNodes[i := formula];
        }
      }
      assert LeafCalls<D>(symbols, 0) + CallsOf(sem, dag, a, []) == LeafCalls<D>(symbols, 0);
      r := CreateNode(dag, a, |dag| - 1);
      WideChildren(dag, Cone(dag, |dag| - 1));
      if r.Some? {
        NoneWide(sem, dag, a, subComponents, Cone(dag, |dag| - 1));
      }
    }
  }
}
