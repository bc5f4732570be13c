/** The iterative low-point test for biconnectivity, proved equivalent to: the graph
    is connected, and stays connected when any one vertex is removed. */
module Biconnected {
  import opened CubGraph

  // --- What biconnected means -----------------------------------------------

  predicate Adjacent(g: seq<seq<int>>, a: int, b: int) {
    0 <= a < |g| && 0 <= b < |g| && Listed(g[a], b)
  }

  /** p is a walk along edges that avoids vertex u (-1 avoids nothing). */
  ghost predicate Walk(g: seq<seq<int>>, u: int, p: seq<int>) {
    && |p| > 0
    && (forall k :: 0 <= k < |p| ==> 0 <= p[k] < |g| && p[k] != u)
    && (forall k :: 0 < k < |p| ==> Adjacent(g, p[k - 1], p[k]))
  }

  ghost predicate Linked(g: seq<seq<int>>, u: int, a: int, b: int) {
    exists p :: Walk(g, u, p) && p[0] == a && p[|p| - 1] == b
  }

  /** Any two vertices other than u are joined by a walk that avoids u. */
  ghost predicate ConnectedWithout(g: seq<seq<int>>, u: int) {
    forall a, b :: 0 <= a < |g| && 0 <= b < |g| && a != u && b != u ==> Linked(g, u, a, b)
  }

  ghost predicate IsBiconnected(g: seq<seq<int>>) {
    ConnectedWithout(g, -1) && forall u :: 0 <= u < |g| ==> ConnectedWithout(g, u)
  }

  // --- Closed sets ----------------------------------------------------------

  ghost predicate KeepsIn(g: seq<seq<int>>, u: int, S: set<int>, a: int, b: int) {
    a in S && Adjacent(g, a, b) && b != u ==> b in S
  }

  /** No edge that avoids u leads out of S. */
  ghost predicate ClosedSet(g: seq<seq<int>>, u: int, S: set<int>) {
    forall a, b :: KeepsIn(g, u, S, a, b)
  }

  lemma {:induction false} WalkStays(g: seq<seq<int>>, u: int, S: set<int>, p: seq<int>, k: int)
    requires Walk(g, u, p) && ClosedSet(g, u, S) && p[0] in S && 0 <= k < |p|
    ensures p[k] in S
    decreases k
  {
    if k > 0 {
      WalkStays(g, u, S, p, k - 1);
      assert KeepsIn(g, u, S, p[k - 1], p[k]);
    }
  }

  /** A closed set that contains a but not b separates them. */
  lemma Separated(g: seq<seq<int>>, u: int, S: set<int>, a: int, b: int)
    requires ClosedSet(g, u, S) && a in S && b !in S
    requires 0 <= a < |g| && 0 <= b < |g| && a != u && b != u
    ensures !ConnectedWithout(g, u)
  {
    if Linked(g, u, a, b) {
      var p :| Walk(g, u, p) && p[0] == a && p[|p| - 1] == b;
      WalkStays(g, u, S, p, |p| - 1);
    }
  }

  ghost function Reach(g: seq<seq<int>>, u: int, a: int): set<int> {
    set b | b in Below(|g|) && Linked(g, u, a, b)
  }

  lemma ReachClosed(g: seq<seq<int>>, u: int, a: int)
    ensures ClosedSet(g, u, Reach(g, u, a))
  {
    forall b, c ensures KeepsIn(g, u, Reach(g, u, a), b, c) {
      if b in Reach(g, u, a) && Adjacent(g, b, c) && c != u {
        var p :| Walk(g, u, p) && p[0] == a && p[|p| - 1] == b;
        assert Walk(g, u, p + [c]);
        assert (p + [c])[0] == a;
      }
    }
  }

  /** If every closed set treats all vertices alike, the graph is connected. */
  lemma ConnectedBySets(g: seq<seq<int>>, u: int, r: int)
    requires forall S, x :: ClosedSet(g, u, S) && 0 <= x < |g| && x != u ==> (x in S <==> r in S)
    ensures ConnectedWithout(g, u)
  {
    forall a, b | 0 <= a < |g| && 0 <= b < |g| && a != u && b != u ensures Linked(g, u, a, b) {
      ReachClosed(g, u, a);
      assert Walk(g, u, [a]);
      assert a in Reach(g, u, a);
      assert b in Reach(g, u, a);
    }
  }

  // --- The depth-first search as a value ------------------------------------

  /** The tables of the search. `par` and `fin` are for the proof: the vertex from
      which x was entered, and the number of vertices seen when x was left. */
  datatype Dfs = Dfs(num: seq<int>, lp: seq<int>, vis: seq<bool>, stk: seq<int>,
                     order: seq<int>, par: seq<int>, fin: seq<int>)

  ghost predicate Shape(g: seq<seq<int>>, D: Dfs) {
    && Simple(g)
    && |D.num| == |D.lp| == |D.vis| == |D.par| == |D.fin| == |g| > 0
    && |D.stk| > 0
    && (forall k :: 0 <= k < |D.stk| ==> 0 <= D.stk[k] < |g|)
    && (forall k :: 0 <= k < |D.order| ==> 0 <= D.order[k] < |g|)
    && (forall x :: 0 <= x < |g| ==> 0 <= D.par[x] < |g|)
  }

  /** A visited vertex has its number, and was entered from a smaller one. */
  ghost predicate VisOk(g: seq<seq<int>>, D: Dfs, x: int)
    requires Shape(g, D)
  {
    0 <= x < |g| && D.vis[x] ==>
      && 0 <= D.num[x] < |D.order| && D.order[D.num[x]] == x
      && (x != 0 ==> D.vis[D.par[x]] && Adjacent(g, D.par[x], x) && D.num[D.par[x]] < D.num[x])
      && (x != 0 && D.par[x] == 0 ==> D.num[x] == 1)
  }

  ghost predicate OrderOk(g: seq<seq<int>>, D: Dfs, k: int)
    requires Shape(g, D)
  {
    0 <= k < |D.order| ==> D.vis[D.order[k]] && D.num[D.order[k]] == k
  }

  ghost predicate StkOk(g: seq<seq<int>>, D: Dfs, k: int)
    requires Shape(g, D)
  {
    0 <= k < |D.stk| ==> D.vis[D.stk[k]] && (k > 0 ==> D.par[D.stk[k]] == D.stk[k - 1])
  }

  ghost predicate Rising(g: seq<seq<int>>, D: Dfs)
    requires Shape(g, D)
  {
    forall i, j :: 0 <= i < j < |D.stk| ==> D.num[D.stk[i]] < D.num[D.stk[j]]
  }

  ghost predicate Left(g: seq<seq<int>>, D: Dfs, x: int)
    requires Shape(g, D)
  {
    0 <= x < |g| && D.vis[x] && x !in D.stk
  }

  ghost predicate SeenBefore(g: seq<seq<int>>, D: Dfs, x: int, y: int, b: int)
    requires Shape(g, D)
  {
    Adjacent(g, x, y) ==> D.vis[y] && D.num[y] < b
  }

  /** A vertex is left only when its neighbours have been seen. */
  ghost predicate LeftOk(g: seq<seq<int>>, D: Dfs, x: int)
    requires Shape(g, D)
  {
    Left(g, D, x) ==> D.num[x] < D.fin[x] <= |D.order| && forall y :: SeenBefore(g, D, x, y, D.fin[x])
  }

  /** A vertex left was entered after a stacked one, or left before it was entered. */
  ghost predicate Laminar(g: seq<seq<int>>, D: Dfs, x: int, k: int)
    requires Shape(g, D)
  {
    Left(g, D, x) && 0 <= k < |D.stk| ==> D.num[x] > D.num[D.stk[k]] || D.fin[x] <= D.num[D.stk[k]]
  }

  /** Vertices entered after a stacked vertex descend from it. */
  ghost predicate UnderStk(g: seq<seq<int>>, D: Dfs, k: int, y: int)
    requires Shape(g, D)
  {
    0 <= k < |D.stk| && 0 <= y < |g| && D.vis[y] && D.num[y] > D.num[D.stk[k]] ==>
      D.num[D.par[y]] >= D.num[D.stk[k]]
  }

  /** Vertices entered between entering and leaving c descend from c. */
  ghost predicate UnderLeft(g: seq<seq<int>>, D: Dfs, c: int, y: int)
    requires Shape(g, D)
  {
    Left(g, D, c) && 0 <= y < |g| && D.vis[y] && D.num[c] < D.num[y] < D.fin[c] ==> D.num[D.par[y]] >= D.num[c]
  }

  ghost function NextNum(g: seq<seq<int>>, D: Dfs, k: int): int
    requires Shape(g, D) && 0 <= k < |D.stk|
  {
    if k == |D.stk| - 1 then |D.order| else D.num[D.stk[k + 1]]
  }

  /** lp bounds the numbers reached by edges from the part of the tree that hangs
      off stack position k, the tree edge to the parent excepted. */
  ghost predicate LowBound(g: seq<seq<int>>, D: Dfs, k: int, y: int, x: int)
    requires Shape(g, D)
  {
    && 0 < k < |D.stk| && Adjacent(g, y, x) && D.vis[y] && D.vis[x]
    && D.num[D.stk[k]] <= D.num[y] < NextNum(g, D, k)
    && D.num[x] < D.num[D.stk[k]] && !(y == D.stk[k] && x == D.stk[k - 1])
    ==> D.lp[D.stk[k]] <= D.num[x]
  }

  /** An edge from a vertex numbered in [lo, hi) to the vertex numbered t. */
  ghost predicate JumpAt(g: seq<seq<int>>, D: Dfs, lo: int, hi: int, t: int, y: int, x: int)
    requires Shape(g, D)
  {
    Adjacent(g, y, x) && D.vis[y] && D.vis[x] && lo <= D.num[y] < hi && D.num[x] == t
  }

  ghost predicate Jump(g: seq<seq<int>>, D: Dfs, lo: int, hi: int, t: int)
    requires Shape(g, D)
  {
    exists y, x :: JumpAt(g, D, lo, hi, t, y, x)
  }

  /** lp is attained. */
  ghost predicate LowReal(g: seq<seq<int>>, D: Dfs, k: int)
    requires Shape(g, D)
  {
    0 < k < |D.stk| ==>
      var w := D.stk[k];
      D.lp[w] == D.num[w] || Jump(g, D, D.num[w], |D.order|, D.lp[w])
  }

  /** A left vertex whose parent is not the root has an edge from its subtree to
      above its parent. */
  ghost predicate Escapes(g: seq<seq<int>>, D: Dfs, c: int)
    requires Shape(g, D)
  {
    Left(g, D, c) && c != 0 && D.par[c] != 0 ==>
      exists t :: t < D.num[D.par[c]] && Jump(g, D, D.num[c], D.fin[c], t)
  }

  ghost predicate Basic(g: seq<seq<int>>, D: Dfs) {
    && Shape(g, D)
    && D.stk[0] == 0 && D.vis[0] && D.num[0] == 0
    && (|D.stk| == 1 ==> |D.order| == 1)
    && (forall x :: VisOk(g, D, x)) && (forall k :: OrderOk(g, D, k))
    && (forall k :: StkOk(g, D, k)) && Rising(g, D)
  }

  ghost predicate Nested(g: seq<seq<int>>, D: Dfs)
    requires Shape(g, D)
  {
    && (forall x :: LeftOk(g, D, x)) && (forall x, k :: Laminar(g, D, x, k))
    && (forall k, y :: UnderStk(g, D, k, y)) && (forall c, y :: UnderLeft(g, D, c, y))
  }

  ghost predicate Low(g: seq<seq<int>>, D: Dfs)
    requires Shape(g, D)
  {
    && (forall k, y, x :: LowBound(g, D, k, y, x)) && (forall k :: LowReal(g, D, k))
    && (forall c :: Escapes(g, D, c))
  }

  ghost predicate Inv(g: seq<seq<int>>, D: Dfs) {
    Basic(g, D) && Nested(g, D) && Low(g, D)
  }

  ghost predicate AllSeen(g: seq<seq<int>>, D: Dfs, v: int)
    requires Shape(g, D)
  {
    forall y :: Adjacent(g, v, y) ==> D.vis[y]
  }

  lemma AdjacentSym(g: seq<seq<int>>, a: int, b: int)
    requires Simple(g) && Adjacent(g, a, b)
    ensures Adjacent(g, b, a) && a != b
  {
    assert SimpleRow(g, a);
  }

  // --- Entering a vertex ----------------------------------------------------

  /** Enters v, not seen before, from the top of the stack, with low point `low`. */
  function Enter(D: Dfs, v: int, low: int): Dfs
    requires 0 <= v < |D.num| && |D.num| == |D.lp| == |D.vis| == |D.par| && |D.stk| > 0
  {
    D.(num := D.num[v := |D.order|], lp := D.lp[v := low], vis := D.vis[v := true],
       stk := D.stk + [v], order := D.order + [v], par := D.par[v := D.stk[|D.stk| - 1]])
  }

  /** low is the least of v's number and the numbers of its seen neighbours, the
      parent excepted. */
  ghost predicate LowAtEntry(g: seq<seq<int>>, D: Dfs, v: int, low: int)
    requires Shape(g, D)
  {
    && (forall x :: Adjacent(g, v, x) && D.vis[x] && x != D.stk[|D.stk| - 1] ==> low <= D.num[x])
    && (low == |D.order| || exists x :: Adjacent(g, v, x) && D.vis[x] && D.num[x] == low)
  }

  ghost predicate CanEnter(g: seq<seq<int>>, D: Dfs, v: int, low: int) {
    && Inv(g, D) && 0 <= v < |g| && !D.vis[v] && Adjacent(g, D.stk[|D.stk| - 1], v)
    && LowAtEntry(g, D, v, low)
  }

  lemma EnterBasic(g: seq<seq<int>>, D: Dfs, v: int, low: int)
    requires CanEnter(g, D, v, low)
    ensures Basic(g, Enter(D, v, low))
  {
    hide Nested, Low, LowAtEntry, Simple;
    var E, top := Enter(D, v, low), D.stk[|D.stk| - 1];
    assert VisOk(g, D, top) && StkOk(g, D, |D.stk| - 1) && StkOk(g, D, 0);
    forall x ensures VisOk(g, E, x) {
      assert VisOk(g, D, x);
      if x == v && top == 0 {
        assert |D.stk| == 1;
      }
    }
    forall k ensures OrderOk(g, E, k) {
      assert OrderOk(g, D, k);
    }
    forall k ensures StkOk(g, E, k) {
      assert StkOk(g, D, k) && StkOk(g, D, k - 1);
    }
    forall i, j | 0 <= i < j < |E.stk| ensures E.num[E.stk[i]] < E.num[E.stk[j]] {
      assert StkOk(g, D, i) && VisOk(g, D, D.stk[i]);
      if j < |D.stk| {
        assert StkOk(g, D, j);
      }
    }
  }

  /** What entering v leaves alone. */
  lemma EnterFacts(g: seq<seq<int>>, D: Dfs, v: int, low: int)
    requires CanEnter(g, D, v, low)
    ensures Shape(g, Enter(D, v, low)) && v !in D.stk
    ensures forall x :: Left(g, Enter(D, v, low), x) <==> Left(g, D, x)
    ensures forall x :: 0 <= x < |g| && D.vis[x] ==> 0 <= D.num[x] < |D.order|
    ensures forall k :: 0 <= k < |D.stk| ==> D.vis[D.stk[k]] && D.stk[k] != v
    ensures forall k :: 0 <= k < |D.stk| ==> D.num[D.stk[k]] <= D.num[D.stk[|D.stk| - 1]]
  {
    hide Nested, Low, LowAtEntry, Simple;
    forall k | 0 <= k < |D.stk| ensures D.vis[D.stk[k]] && D.stk[k] != v {
      assert StkOk(g, D, k);
    }
    forall x | 0 <= x < |g| && D.vis[x] ensures 0 <= D.num[x] < |D.order| {
      assert VisOk(g, D, x);
    }
    var E := Enter(D, v, low);
    forall x ensures Left(g, E, x) <==> Left(g, D, x) {
      assert x in E.stk <==> x in D.stk || x == v;
    }
  }

  lemma EnterNested(g: seq<seq<int>>, D: Dfs, v: int, low: int)
    requires CanEnter(g, D, v, low)
    ensures Shape(g, Enter(D, v, low)) && Nested(g, Enter(D, v, low))
  {
    EnterFacts(g, D, v, low);
    hide Low, LowAtEntry, Simple, Basic, Left;
    var E := Enter(D, v, low);
    forall x ensures LeftOk(g, E, x) {
      assert LeftOk(g, D, x);
      forall y ensures Left(g, E, x) ==> SeenBefore(g, E, x, y, E.fin[x]) {
        if Left(g, E, x) {
          LeftSeen(g, D, x);
          assert SeenBefore(g, D, x, y, D.fin[x]);
        }
      }
      if Left(g, E, x) { LeftSeen(g, D, x); }
    }
    forall x, k ensures Laminar(g, E, x, k) {
      assert Laminar(g, D, x, k) && LeftOk(g, D, x);
      if Left(g, E, x) { LeftSeen(g, D, x); }
    }
    forall k, y ensures UnderStk(g, E, k, y) {
      assert UnderStk(g, D, k, y);
      EnterPar(g, D, v, y);
    }
    forall c, y ensures UnderLeft(g, E, c, y) {
      assert UnderLeft(g, D, c, y) && LeftOk(g, D, c);
      EnterPar(g, D, v, y);
      if Left(g, E, c) { LeftSeen(g, D, c); }
    }
  }

  lemma LeftSeen(g: seq<seq<int>>, D: Dfs, x: int)
    requires Shape(g, D) && Left(g, D, x)
    ensures 0 <= x < |g| && D.vis[x]
  {
  }

  /** The parent of a vertex seen before has been seen before. */
  lemma EnterPar(g: seq<seq<int>>, D: Dfs, v: int, y: int)
    requires Inv(g, D) && 0 <= v < |g| && !D.vis[v]
    ensures 0 <= y < |g| && D.vis[y] && y != 0 ==> D.vis[D.par[y]] && D.par[y] != v
    ensures D.num[0] == 0
  {
    assert VisOk(g, D, y);
  }

  lemma EnterJump(g: seq<seq<int>>, D: Dfs, v: int, low: int, lo: int, hi: int, hi': int, t: int)
    requires CanEnter(g, D, v, low) && Jump(g, D, lo, hi, t) && hi <= hi'
    ensures Shape(g, Enter(D, v, low)) && Jump(g, Enter(D, v, low), lo, hi', t)
  {
    EnterFacts(g, D, v, low);
    hide Basic, Nested, Low, LowAtEntry, Simple;
    var y, x :| JumpAt(g, D, lo, hi, t, y, x);
    assert JumpAt(g, Enter(D, v, low), lo, hi', t, y, x);
  }

  lemma EnterLowBound(g: seq<seq<int>>, D: Dfs, v: int, low: int, k: int, y: int, x: int)
    requires CanEnter(g, D, v, low)
    ensures Shape(g, Enter(D, v, low)) && LowBound(g, Enter(D, v, low), k, y, x)
  {
    EnterFacts(g, D, v, low);
    assert LowBound(g, D, k, y, x);
    hide Basic, Nested, Low, Simple, Left;
    assert y == x ==> !Adjacent(g, y, x) by {
      if Adjacent(g, y, x) { AdjacentSym(g, y, x); }
    }
  }

  lemma EnterLow(g: seq<seq<int>>, D: Dfs, v: int, low: int)
    requires CanEnter(g, D, v, low)
    ensures Shape(g, Enter(D, v, low)) && Low(g, Enter(D, v, low))
  {
    EnterFacts(g, D, v, low);
    hide Basic, Nested, Simple, Left, Jump;
    var E, top := Enter(D, v, low), D.stk[|D.stk| - 1];
    forall k, y, x ensures LowBound(g, E, k, y, x) {
      EnterLowBound(g, D, v, low, k, y, x);
    }
    forall k ensures LowReal(g, E, k) {
      assert LowReal(g, D, k);
      if 0 < k < |D.stk| {
        var w := D.stk[k];
        if D.lp[w] != D.num[w] {
          EnterJump(g, D, v, low, D.num[w], |D.order|, |E.order|, D.lp[w]);
        }
      } else if k == |D.stk| && low != |D.order| {
        EnterTopReal(g, D, v, low);
      }
    }
    forall c ensures Escapes(g, E, c) {
      assert Escapes(g, D, c);
      if Left(g, D, c) {
        LeftSeen(g, D, c);
        EnterPar(g, D, v, c);
        if c != 0 && D.par[c] != 0 {
          var t :| t < D.num[D.par[c]] && Jump(g, D, D.num[c], D.fin[c], t);
          EnterJump(g, D, v, low, D.num[c], D.fin[c], D.fin[c], t);
          assert t < E.num[E.par[c]] && Jump(g, E, E.num[c], E.fin[c], t);
        }
      }
    }
  }

  lemma EnterTopReal(g: seq<seq<int>>, D: Dfs, v: int, low: int)
    requires CanEnter(g, D, v, low) && low != |D.order|
    ensures Shape(g, Enter(D, v, low)) && Jump(g, Enter(D, v, low), |D.order|, |D.order| + 1, low)
  {
    EnterFacts(g, D, v, low);
    hide Basic, Nested, Low, Simple, Left;
    var x :| Adjacent(g, v, x) && D.vis[x] && D.num[x] == low;
    assert JumpAt(g, Enter(D, v, low), |D.order|, |D.order| + 1, low, v, x);
  }

  lemma EnterInv(g: seq<seq<int>>, D: Dfs, v: int, low: int)
    requires CanEnter(g, D, v, low)
    ensures Inv(g, Enter(D, v, low))
  {
    EnterBasic(g, D, v, low);
    EnterNested(g, D, v, low);
    EnterLow(g, D, v, low);
  }

  // --- Leaving a vertex -----------------------------------------------------

  /** Leaves the top of the stack and passes its low point to its parent. */
  function Leave(D: Dfs): Dfs
    requires |D.stk| > 1 && |D.num| == |D.lp| == |D.vis| == |D.par| == |D.fin|
    requires 0 <= D.stk[|D.stk| - 1] < |D.fin| && 0 <= D.stk[|D.stk| - 2] < |D.lp|
  {
    var w, v := D.stk[|D.stk| - 1], D.stk[|D.stk| - 2];
    D.(stk := D.stk[..|D.stk| - 1], fin := D.fin[w := |D.order|],
       lp := D.lp[v := if D.lp[w] < D.lp[v] then D.lp[w] else D.lp[v]])
  }

  ghost predicate CanLeave(g: seq<seq<int>>, D: Dfs) {
    && Inv(g, D) && |D.stk| > 2 && AllSeen(g, D, D.stk[|D.stk| - 1])
    && D.lp[D.stk[|D.stk| - 1]] < D.num[D.stk[|D.stk| - 2]]
  }

  lemma LeaveFacts(g: seq<seq<int>>, D: Dfs)
    requires CanLeave(g, D)
    ensures Shape(g, Leave(D)) && D.stk[|D.stk| - 1] !in Leave(D).stk
    ensures forall x :: Left(g, Leave(D), x) <==> Left(g, D, x) || x == D.stk[|D.stk| - 1]
    ensures forall x :: 0 <= x < |g| && D.vis[x] ==> 0 <= D.num[x] < |D.order|
    ensures forall k :: 0 <= k < |D.stk| - 1 ==> D.num[D.stk[k]] < D.num[D.stk[|D.stk| - 1]]
    ensures D.vis[D.stk[|D.stk| - 1]] && D.par[D.stk[|D.stk| - 1]] == D.stk[|D.stk| - 2]
    ensures D.stk[|D.stk| - 1] != 0 && D.num[0] == 0
  {
    hide Nested, Low, Simple;
    var n := |D.stk|;
    var w := D.stk[n - 1];
    assert StkOk(g, D, n - 1);
    forall x | 0 <= x < |g| && D.vis[x] ensures 0 <= D.num[x] < |D.order| {
      assert VisOk(g, D, x);
    }
    forall x ensures Left(g, Leave(D), x) <==> Left(g, D, x) || x == w {
      assert x in D.stk <==> x in D.stk[..n - 1] || x == w;
    }
  }

  lemma LeaveBasic(g: seq<seq<int>>, D: Dfs)
    requires CanLeave(g, D)
    ensures Basic(g, Leave(D))
  {
    LeaveFacts(g, D);
    hide Nested, Low, Simple, Left, AllSeen;
    var E := Leave(D);
    forall x ensures VisOk(g, E, x) { assert VisOk(g, D, x); }
    forall k ensures OrderOk(g, E, k) { assert OrderOk(g, D, k); }
    forall k ensures StkOk(g, E, k) { assert StkOk(g, D, k); }
  }

  lemma LeaveNested(g: seq<seq<int>>, D: Dfs)
    requires CanLeave(g, D)
    ensures Shape(g, Leave(D)) && Nested(g, Leave(D))
  {
    LeaveFacts(g, D);
    hide Low, Simple, Basic, Left;
    var E, w := Leave(D), D.stk[|D.stk| - 1];
    forall x ensures LeftOk(g, E, x) {
      assert LeftOk(g, D, x);
      if Left(g, E, x) {
        forall y ensures SeenBefore(g, E, x, y, E.fin[x]) {
          if x != w { assert SeenBefore(g, D, x, y, D.fin[x]); }
        }
      }
    }
    forall x, k ensures Laminar(g, E, x, k) {
      assert Laminar(g, D, x, k);
    }
    forall k, y ensures UnderStk(g, E, k, y) {
      assert UnderStk(g, D, k, y);
    }
    forall c, y ensures UnderLeft(g, E, c, y) {
      assert UnderLeft(g, D, c, y) && UnderStk(g, D, |D.stk| - 1, y);
    }
  }

  lemma LeaveLowBound(g: seq<seq<int>>, D: Dfs, k: int, y: int, x: int)
    requires CanLeave(g, D)
    ensures Shape(g, Leave(D)) && LowBound(g, Leave(D), k, y, x)
  {
    LeaveFacts(g, D);
    assert LowBound(g, D, k, y, x) && LowBound(g, D, |D.stk| - 1, y, x);
    hide Nested, Low, Simple, Left, AllSeen;
  }

  lemma LeaveLow(g: seq<seq<int>>, D: Dfs)
    requires CanLeave(g, D)
    ensures Shape(g, Leave(D)) && Low(g, Leave(D))
  {
    LeaveFacts(g, D);
    hide Basic, Nested, Simple, Left, AllSeen;
    var E, n := Leave(D), |D.stk|;
    var w, v := D.stk[n - 1], D.stk[n - 2];
    forall k, y, x ensures LowBound(g, E, k, y, x) {
      LeaveLowBound(g, D, k, y, x);
    }
    assert LowReal(g, D, n - 1);
    forall k ensures LowReal(g, E, k) {
      assert LowReal(g, D, k);
      if 0 < k < n - 1 {
        LeaveLowReal(g, D, k);
      }
    }
    forall c ensures Escapes(g, E, c) {
      assert Escapes(g, D, c);
      if c == w {
        assert Jump(g, D, D.num[w], |D.order|, D.lp[w]);
        LeaveJump(g, D, D.num[w], D.num[w], |D.order|, D.lp[w]);
        assert D.lp[w] < E.num[E.par[w]] && Jump(g, E, E.num[w], E.fin[w], D.lp[w]);
      } else if Left(g, D, c) && c != 0 {
        LeftSeen(g, D, c);
        if D.par[c] != 0 {
          var t :| t < D.num[D.par[c]] && Jump(g, D, D.num[c], D.fin[c], t);
          LeaveJump(g, D, D.num[c], D.num[c], D.fin[c], t);
          assert t < E.num[E.par[c]] && Jump(g, E, E.num[c], E.fin[c], t);
        }
      }
    }
  }

  lemma LeaveJump(g: seq<seq<int>>, D: Dfs, lo: int, lo': int, hi: int, t: int)
    requires CanLeave(g, D) && Jump(g, D, lo, hi, t) && lo' <= lo
    ensures Shape(g, Leave(D)) && Jump(g, Leave(D), lo', hi, t)
  {
    LeaveFacts(g, D);
    hide Basic, Nested, Low, Simple, Left, AllSeen;
    var y, x :| JumpAt(g, D, lo, hi, t, y, x);
    assert JumpAt(g, Leave(D), lo', hi, t, y, x);
  }

  lemma LeaveLowReal(g: seq<seq<int>>, D: Dfs, k: int)
    requires CanLeave(g, D) && 0 < k < |D.stk| - 1
    ensures Shape(g, Leave(D)) && LowReal(g, Leave(D), k)
  {
    LeaveFacts(g, D);
    var n := |D.stk|;
    var w, u := D.stk[n - 1], D.stk[k];
    assert LowReal(g, D, k) && LowReal(g, D, n - 1);
    assert D.stk[n - 2] == u ==> k == n - 2 by {
      assert Rising(g, D);
    }
    hide Basic, Nested, Low, Simple, Left, AllSeen, Jump;
    if Leave(D).lp[u] == D.lp[u] {
      if D.lp[u] != D.num[u] {
        LeaveJump(g, D, D.num[u], D.num[u], |D.order|, D.lp[u]);
      }
    } else {
      LeaveJump(g, D, D.num[w], D.num[u], |D.order|, D.lp[w]);
    }
  }

  lemma LeaveInv(g: seq<seq<int>>, D: Dfs)
    requires CanLeave(g, D)
    ensures Inv(g, Leave(D))
  {
    LeaveBasic(g, D);
    LeaveNested(g, D);
    LeaveLow(g, D);
  }

  // --- The verdicts ---------------------------------------------------------

  /** The vertices entered at or after the vertex numbered m. */
  ghost function From(g: seq<seq<int>>, D: Dfs, m: int): set<int>
    requires Shape(g, D)
  {
    set y | y in Below(|g|) && D.vis[y] && D.num[y] >= m
  }

  /** When the top w of the stack has no unseen neighbour, edges out of its subtree
      lead to stacked vertices below it. */
  lemma LeadsDown(g: seq<seq<int>>, D: Dfs, y: int, x: int)
    requires Inv(g, D) && |D.stk| > 1 && AllSeen(g, D, D.stk[|D.stk| - 1])
    requires D.vis[D.stk[|D.stk| - 1]]
    requires y in From(g, D, D.num[D.stk[|D.stk| - 1]]) && Adjacent(g, y, x)
    ensures D.vis[x] && (D.num[x] >= D.num[D.stk[|D.stk| - 1]] || x in D.stk)
  {
    var n := |D.stk|;
    var w := D.stk[n - 1];
    AdjacentSym(g, y, x);
    assert StkOk(g, D, n - 1) && VisOk(g, D, w) && VisOk(g, D, y);
    if y != w {
      assert y !in D.stk;
      assert LeftOk(g, D, y);
      assert SeenBefore(g, D, y, x, D.fin[y]);
    }
    assert LeftOk(g, D, x) && Laminar(g, D, x, n - 1);
    assert Left(g, D, x) ==> SeenBefore(g, D, x, y, D.fin[x]);
  }

  /** A low point that does not pass the parent v shows that v cuts the graph. */
  lemma CutFound(g: seq<seq<int>>, D: Dfs)
    requires Inv(g, D) && |D.stk| > 2 && AllSeen(g, D, D.stk[|D.stk| - 1])
    requires D.lp[D.stk[|D.stk| - 1]] >= D.num[D.stk[|D.stk| - 2]]
    ensures !ConnectedWithout(g, D.stk[|D.stk| - 2])
  {
    var n := |D.stk|;
    var w, v := D.stk[n - 1], D.stk[n - 2];
    var T := From(g, D, D.num[w]);
    assert StkOk(g, D, n - 1) && VisOk(g, D, w);
    assert D.num[D.stk[0]] < D.num[v] < D.num[w];
    forall y, x ensures KeepsIn(g, v, T, y, x) {
      if y in T && Adjacent(g, y, x) && x != v {
        LeadsDown(g, D, y, x);
        assert VisOk(g, D, y);
        assert LowBound(g, D, n - 1, y, x);
        if x in D.stk {
          var k :| 0 <= k < n && D.stk[k] == x;
        }
      }
    }
    Separated(g, v, T, w, 0);
  }

  lemma RootAlone(g: seq<seq<int>>, D: Dfs)
    requires Inv(g, D) && |D.stk| == 1 && AllSeen(g, D, D.stk[0]) && |g| > 2
    ensures |D.order| != |g| && !ConnectedWithout(g, -1)
  {
    forall y, x ensures KeepsIn(g, -1, {0}, y, x) {
      assert VisOk(g, D, x) && VisOk(g, D, 0);
      if y == 0 && Adjacent(g, y, x) {
        AdjacentSym(g, y, x);
      }
    }
    Separated(g, -1, {0}, 0, 1);
  }

  lemma OrderIsDistinct(g: seq<seq<int>>, D: Dfs)
    requires Basic(g, D)
    ensures forall i, j :: 0 <= i < j < |D.order| ==> D.order[i] != D.order[j]
  {
    hide VisOk, StkOk, Rising, Simple;
    forall i, j | 0 <= i < j < |D.order| ensures D.order[i] != D.order[j] {
      assert OrderOk(g, D, i) && OrderOk(g, D, j);
    }
  }

  lemma AllNumbered(g: seq<seq<int>>, D: Dfs)
    requires Inv(g, D) && |D.order| == |g|
    ensures forall x :: 0 <= x < |g| ==> D.vis[x]
  {
    hide Nested, Low, Simple, VisOk, StkOk, Rising;
    OrderIsDistinct(g, D);
    forall x | 0 <= x < |g| ensures D.vis[x] {
      AllOccur(D.order, |g|, x);
      var k :| 0 <= k < |g| && D.order[k] == x;
      assert OrderOk(g, D, k);
    }
  }

  lemma AllVisited(g: seq<seq<int>>, D: Dfs)
    requires Inv(g, D) && forall x :: 0 <= x < |g| ==> D.vis[x]
    ensures |D.order| == |g|
  {
    hide Nested, Low, Simple, OrderOk, StkOk, Rising, Image, Below;
    OrderIsDistinct(g, D);
    ImageSize(D.order);
    forall x | x in Below(|g|) ensures x in Image(D.order) {
      assert VisOk(g, D, x);
    }
    assert Image(D.order) == Below(|g|);
  }

  /** Vertices left unseen when the root's first child is done lie beyond the root. */
  lemma RootCuts(g: seq<seq<int>>, D: Dfs)
    requires Inv(g, D) && |D.stk| == 2 && AllSeen(g, D, D.stk[1]) && |D.order| != |g|
    ensures !ConnectedWithout(g, 0)
  {
    var w := D.stk[1];
    if forall x :: 0 <= x < |g| ==> D.vis[x] {
      AllVisited(g, D);
    }
    var z :| 0 <= z < |g| && !D.vis[z];
    assert StkOk(g, D, 1) && VisOk(g, D, w);
    var T := From(g, D, D.num[w]);
    forall y, x ensures KeepsIn(g, 0, T, y, x) {
      if y in T && Adjacent(g, y, x) && x != 0 {
        LeadsDown(g, D, y, x);
        if x in D.stk {
          var k :| 0 <= k < 2 && D.stk[k] == x;
        }
      }
    }
    Separated(g, 0, T, w, z);
  }

  ghost predicate Complete(g: seq<seq<int>>, D: Dfs) {
    && Inv(g, D) && |D.stk| == 2
    && (forall x :: 0 <= x < |g| ==> D.vis[x])
  }

  lemma ClosedEdge(g: seq<seq<int>>, u: int, S: set<int>, a: int, b: int)
    requires Simple(g) && ClosedSet(g, u, S) && Adjacent(g, a, b) && a != u && b != u
    ensures a in S <==> b in S
  {
    AdjacentSym(g, a, b);
    assert KeepsIn(g, u, S, a, b) && KeepsIn(g, u, S, b, a);
  }

  /** Everything entered between entering and leaving c is on c's side. */
  lemma {:induction false} SubtreeSide(g: seq<seq<int>>, D: Dfs, u: int, S: set<int>, c: int, y: int)
    requires Complete(g, D) && ClosedSet(g, u, S) && Left(g, D, c) && 0 <= y < |g|
    requires 0 <= u < |g| && D.num[u] < D.num[c] <= D.num[y] < D.fin[c]
    ensures y in S <==> c in S
    decreases D.num[y]
  {
    assert VisOk(g, D, y) && VisOk(g, D, c);
    if y != c {
      var p := D.par[y];
      assert VisOk(g, D, 0);
      assert UnderLeft(g, D, c, y);
      SubtreeSide(g, D, u, S, c, p);
      ClosedEdge(g, u, S, p, y);
    }
  }

  /** Every vertex is on the root's side when a vertex u below the root is removed,
      or when nothing is. */
  lemma {:induction false} RootSide(g: seq<seq<int>>, D: Dfs, u: int, S: set<int>, x: int)
    requires Complete(g, D) && ClosedSet(g, u, S) && -1 <= u < |g| && u != 0
    requires 0 <= x < |g| && x != u
    ensures x in S <==> 0 in S
    decreases D.num[x]
  {
    assert VisOk(g, D, x) && VisOk(g, D, 0);
    if x != 0 {
      var p := D.par[x];
      if p != u {
        RootSide(g, D, u, S, p);
        ClosedEdge(g, u, S, p, x);
      } else {
        ChildLeft(g, D, x);
        assert Escapes(g, D, x) && VisOk(g, D, u);
        var t :| t < D.num[u] && Jump(g, D, D.num[x], D.fin[x], t);
        var y, z :| JumpAt(g, D, D.num[x], D.fin[x], t, y, z);
        SubtreeSide(g, D, u, S, x, y);
        ClosedEdge(g, u, S, y, z);
        assert VisOk(g, D, z);
        RootSide(g, D, u, S, z);
      }
    }
  }

  /** A vertex whose parent is not the root has been left. */
  lemma ChildLeft(g: seq<seq<int>>, D: Dfs, x: int)
    requires Complete(g, D) && 0 < x < |g| && D.par[x] != 0
    ensures Left(g, D, x)
  {
    assert StkOk(g, D, 1);
  }

  /** With the root removed, every vertex is on the side of the root's child. */
  lemma {:induction false} ChildSide(g: seq<seq<int>>, D: Dfs, S: set<int>, x: int)
    requires Complete(g, D) && ClosedSet(g, 0, S) && 0 < x < |g|
    ensures x in S <==> D.stk[1] in S
    decreases D.num[x]
  {
    assert VisOk(g, D, x) && VisOk(g, D, 0) && StkOk(g, D, 1) && VisOk(g, D, D.stk[1]);
    var p := D.par[x];
    if p != 0 {
      ChildSide(g, D, S, p);
      ClosedEdge(g, 0, S, p, x);
    }
  }

  lemma NoCut(g: seq<seq<int>>, D: Dfs)
    requires Complete(g, D)
    ensures IsBiconnected(g)
  {
    forall u | -1 <= u < |g| ensures ConnectedWithout(g, u) {
      var r := if u == 0 then D.stk[1] else 0;
      forall S, x | ClosedSet(g, u, S) && 0 <= x < |g| && x != u ensures x in S <==> r in S {
        if u == 0 {
          ChildSide(g, D, S, x);
        } else {
          RootSide(g, D, u, S, x);
        }
      }
      ConnectedBySets(g, u, r);
    }
  }

  // --- The method -----------------------------------------------------------

  lemma StartInv(g: seq<seq<int>>, D: Dfs)
    requires Simple(g) && |D.num| == |D.lp| == |D.vis| == |D.par| == |D.fin| == |g| > 0
    requires D.stk == [0] && D.order == [0] && D.num[0] == 0
    requires forall x :: 0 <= x < |g| ==> D.vis[x] == (x == 0) && D.par[x] == 0
    ensures Inv(g, D)
  {
  }

  lemma RoomOnStack(g: seq<seq<int>>, D: Dfs, v: int)
    requires Inv(g, D) && 0 <= v < |g| && !D.vis[v]
    ensures |D.stk| < |g|
  {
    hide Nested, Low, Simple, VisOk, OrderOk;
    forall k | 0 <= k < |D.stk| ensures D.stk[k] != v {
      assert StkOk(g, D, k);
    }
    if |D.stk| >= |g| {
      AllOccur(D.stk[..|g|], |g|, v);
    }
  }

  /** What the loop over the three slots of v computes when v is entered. */
  ghost predicate LowUpTo(g: seq<seq<int>>, D: Dfs, v: int, i: int, low: int) {
    && Shape(g, D) && 0 <= v < |g| && 0 <= i <= 3 && |g[v]| == 3
    && (forall k :: 0 <= k < i && 0 <= g[v][k] < |g| && D.vis[g[v][k]] && g[v][k] != D.stk[|D.stk| - 1] ==>
          low <= D.num[g[v][k]])
    && (low == |D.order| || exists k :: 0 <= k < i && 0 <= g[v][k] < |g| && D.vis[g[v][k]] && D.num[g[v][k]] == low)
  }

  lemma LowComplete(g: seq<seq<int>>, D: Dfs, v: int, low: int)
    requires LowUpTo(g, D, v, 3, low)
    ensures LowAtEntry(g, D, v, low)
  {
    forall x | Adjacent(g, v, x) && D.vis[x] && x != D.stk[|D.stk| - 1] ensures low <= D.num[x] {
      var k := SlotOf(g[v], x);
    }
    if low != |D.order| {
      var k :| 0 <= k < 3 && 0 <= g[v][k] < |g| && D.vis[g[v][k]] && D.num[g[v][k]] == low;
      assert Adjacent(g, v, g[v][k]);
    }
  }

  lemma RowOf(g: seq<seq<int>>, v: int)
    requires Simple(g) && 0 <= v < |g|
    ensures |g[v]| == 3 && forall k :: 0 <= k < 3 ==> -1 <= g[v][k] < |g| && g[v][k] != v
  {
    assert SimpleRow(g, v);
  }

  lemma ShapeOf(g: seq<seq<int>>, D: Dfs)
    requires Inv(g, D)
    ensures Shape(g, D) && D.order != []
    ensures |D.stk| > 1 ==> D.stk[|D.stk| - 1] != D.stk[|D.stk| - 2]
  {
    assert VisOk(g, D, 0);
  }

  lemma SlotsSeen(g: seq<seq<int>>, D: Dfs, v: int)
    requires Shape(g, D) && 0 <= v < |g| && |g[v]| == 3
    requires forall k :: 0 <= k < 3 && 0 <= g[v][k] < |g| ==> D.vis[g[v][k]]
    ensures AllSeen(g, D, v)
  {
  }

  lemma DoneAtChild(g: seq<seq<int>>, D: Dfs)
    requires Inv(g, D) && |D.stk| == 2 && AllSeen(g, D, D.stk[1])
    ensures |D.order| == |g| <==> IsBiconnected(g)
  {
    hide Inv, AllSeen;
    if |D.order| == |g| {
      AllNumbered(g, D);
      NoCut(g, D);
    } else {
      RootCuts(g, D);
    }
  }

  /** The loop over the slots of the vertex v about to be entered, whose number and
      first low point are already stored. */
  method LowPoint(g: seq<seq<int>>, v: int, w: int, visited: array<bool>, num: array<int>, lp: array<int>, ghost D: Dfs)
    requires Inv(g, D) && 0 <= v < |g| && !D.vis[v] && w == D.stk[|D.stk| - 1]
    requires visited.Length == num.Length == lp.Length == |g| && num != lp
    requires visited[..] == D.vis[v := true] && num[..] == D.num[v := |D.order|] && lp[v] == |D.order|
    modifies lp
    ensures LowUpTo(g, D, v, 3, lp[v])
    ensures forall x :: 0 <= x < |g| && x != v ==> lp[x] == old(lp[x])
  {
    hide Inv, Simple;
    ShapeOf(g, D);
    RowOf(g, v);
    var i := 0;
    while i < 3
      invariant 0 <= i <= 3 && LowUpTo(g, D, v, i, lp[v])
      invariant forall x :: 0 <= x < |g| && x != v ==> lp[x] == old(lp[x])
    {
      var x := g[v][i];
      if x >= 0 && x != w && visited[x] {
        assert visited[..][x] && num[..][x] == D.num[x];
        if num[x] < lp[v] { lp[v] := num[x]; }
      } else if x >= 0 && x != w {
        assert !visited[..][x];
      }
      i := i + 1;
    }
  }

  /** The arrays hold the tables of D. */
  ghost predicate Holds(g: seq<seq<int>>, D: Dfs, visited: array<bool>, num: array<int>, lp: array<int>,
      stack: array<int>,
                        sp: int, numvis: int)
    reads visited, num, lp, stack
  {
    && visited.Length == num.Length == lp.Length == stack.Length == |g|
    && num != lp && num != stack && lp != stack
    && 0 <= sp < |g| && |D.stk| == sp + 1 && stack[..sp + 1] == D.stk
    && visited[..] == D.vis && num[..] == D.num && lp[..] == D.lp && numvis == |D.order|
  }

  /** Enters v from the vertex on top of the stack. */
  method EnterVertex(g: seq<seq<int>>, v: int, visited: array<bool>, num: array<int>, lp: array<int>, stack: array<int>,
                     sp: int, numvis: int, ghost D: Dfs) returns (ghost E: Dfs)
    requires Inv(g, D) && Holds(g, D, visited, num, lp, stack, sp, numvis)
    requires 0 <= v < |g| && !D.vis[v] && Adjacent(g, stack[sp], v)
    modifies visited, num, lp, stack
    ensures Inv(g, E) && Holds(g, E, visited, num, lp, stack, sp + 1, numvis + 1)
    ensures stack[sp + 1] == v && |D.order| < |E.order|
  {
    hide Inv, Simple, LowUpTo, LowAtEntry, Adjacent;
    ShapeIn(g, D);
    RoomOnStack(g, D, v);
    var w := stack[sp];
    stack[sp + 1] := v;
    visited[v] := true;
    num[v] := numvis;
    lp[v] := numvis;
    LowStart(g, D, v);
    LowPoint(g, v, w, visited, num, lp, D);
    LowComplete(g, D, v, lp[v]);
    EnterInv(g, D, v, lp[v]);
    E := Enter(D, v, lp[v]);
    assert stack[..sp + 2] == E.stk && lp[..] == E.lp;
  }

  lemma LowStart(g: seq<seq<int>>, D: Dfs, v: int)
    requires Inv(g, D) && 0 <= v < |g|
    ensures Shape(g, D)
  {
  }

  /** Goes back from the top of the stack to its parent. */
  method LeaveVertex(g: seq<seq<int>>, visited: array<bool>, num: array<int>, lp: array<int>, stack: array<int>,
                     sp: int, numvis: int, ghost D: Dfs) returns (cut: bool, ghost E: Dfs)
    requires Inv(g, D) && Holds(g, D, visited, num, lp, stack, sp, numvis) && sp > 1
    requires Shape(g, D) && AllSeen(g, D, stack[sp])
    modifies lp
    ensures cut ==> !IsBiconnected(g)
    ensures !cut ==> Inv(g, E) && Holds(g, E, visited, num, lp, stack, sp - 1, numvis) && E.order == D.order
  {
    hide Inv, Simple, AllSeen, IsBiconnected, ConnectedWithout;
    ShapeIn(g, D);
    ShapeOf(g, D);
    var w, v := stack[sp], stack[sp - 1];
    assert D.stk[sp] == w && D.stk[sp - 1] == v;
    E := D;
    cut := lp[w] >= num[v];
    if cut {
      CutFound(g, D);
      NotConnected(g, v);
    } else {
      LeaveInv(g, D);
      if lp[w] < lp[v] { lp[v] := lp[w]; }
      E := Leave(D);
      assert stack[..sp] == E.stk && lp[..] == E.lp;
    }
  }

  /** The first slot of v that leads to an unseen vertex, or 3. */
  method UnseenSlot(g: seq<seq<int>>, v: int, visited: array<bool>, ghost D: Dfs) returns (i: int)
    requires Inv(g, D) && visited.Length == |g| && visited[..] == D.vis && 0 <= v < |g|
    ensures 0 <= i <= 3 && Shape(g, D)
    ensures i < 3 ==> |g[v]| == 3 && 0 <= g[v][i] < |g| && !D.vis[g[v][i]] && Adjacent(g, v, g[v][i])
    ensures i == 3 ==> AllSeen(g, D, v)
  {
    hide Inv, Simple, Shape, AllSeen;
    ShapeIn(g, D);
    RowOf(g, v);
    i := 0;
    while i < 3 && (g[v][i] < 0 || visited[g[v][i]])
      invariant 0 <= i <= 3
      invariant forall k :: 0 <= k < i && 0 <= g[v][k] < |g| ==> D.vis[g[v][k]]
    {
      assert g[v][i] >= 0 ==> visited[..][g[v][i]];
      i := i + 1;
    }
    if i < 3 {
      assert !visited[..][g[v][i]];
    } else {
      SlotsSeen(g, D, v);
    }
  }

  /** Tests whether the graph is biconnected. */
  method BiconnectedCub(g: seq<seq<int>>) returns (result: bool)
    requires Simple(g)
    ensures |g| <= 2 ==> !result
    ensures |g| > 2 ==> (result <==> IsBiconnected(g))
  {
    hide Simple, Inv, AllSeen, IsBiconnected, ConnectedWithout, Shape, Adjacent;
    var n := |g|;
    if n <= 2 {
      return false;
    }
    var visited := new bool[n](_ => false);
    var num, lp, stack := new int[n], new int[n], new int[n];
    visited[0] := true;
    stack[0] := 0;
    num[0] := 0;
    lp[0] := 0;
    var numvis, sp := 1, 0;
    ghost var D := Dfs(num[..], lp[..], visited[..], [0], [0], seq(n, _ => 0), seq(n, _ => 0));
    StartInv(g, D);
    while true
      invariant Inv(g, D) && Holds(g, D, visited, num, lp, stack, sp, numvis)
      decreases n - |D.order|, sp
    {
      ShapeIn(g, D);
      var v := stack[sp];
      assert D.stk[sp] == v;
      var i := UnseenSlot(g, v, visited, D);
      if i < 3 {
        D := EnterVertex(g, g[v][i], visited, num, lp, stack, sp, numvis, D);
        sp, numvis := sp + 1, numvis + 1;
      } else if sp <= 1 {
        if sp == 0 { RootAlone(g, D); NotConnected(g, -1); } else { DoneAtChild(g, D); }
        return numvis == n;
      } else {
        var cut;
        cut, D := LeaveVertex(g, visited, num, lp, stack, sp, numvis, D);
        if cut {
          return false;
        }
        sp := sp - 1;
      }
    }
  }

  lemma ShapeIn(g: seq<seq<int>>, D: Dfs)
    requires Inv(g, D)
    ensures Shape(g, D) && |D.num| == |D.lp| == |D.vis| == |D.par| == |D.fin| == |g|
    ensures |D.stk| > 0 && forall k :: 0 <= k < |D.stk| ==> 0 <= D.stk[k] < |g|
    ensures |D.order| <= |g|
  {
    assert VisOk(g, D, 0);
    OrderBound(g, D);
  }

  lemma OrderBound(g: seq<seq<int>>, D: Dfs)
    requires Basic(g, D)
    ensures |D.order| <= |g|
  {
    hide VisOk, StkOk, Rising, Simple, OrderOk, Image, Below;
    OrderIsDistinct(g, D);
    ImageSize(D.order);
    SubsetSize(Image(D.order), Below(|g|));
  }

  lemma NotConnected(g: seq<seq<int>>, u: int)
    requires -1 <= u < |g| && !ConnectedWithout(g, u)
    ensures !IsBiconnected(g)
  {
  }
}
