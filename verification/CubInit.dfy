/** Numbering the edges of a graph given by its rows: every edge is numbered when
    its smaller end is met, and its other slot copies that number. */
module CubNumbering {
  import opened CubGraph

  /** The number of slots of row x before slot i that lead to a larger vertex. */
  function ForwardInRow(row: seq<int>, x: int, i: nat): nat
    requires i <= |row|
  {
    if i == 0 then 0 else ForwardInRow(row, x, i - 1) + (if row[i - 1] > x then 1 else 0)
  }

  /** The number of edges whose smaller end is below x. */
  function ForwardBefore(g: seq<seq<int>>, x: nat): nat
    requires HasRows(g) && x <= |g|
  {
    if x == 0 then 0 else ForwardBefore(g, x - 1) + ForwardInRow(g[x - 1], x - 1, 3)
  }

  /** The number of edges: pairs of adjacent vertices, counted at the smaller one. */
  function EdgeCount(g: seq<seq<int>>): nat
    requires HasRows(g)
  {
    ForwardBefore(g, |g|)
  }

  lemma {:induction false} ForwardInRowMono(row: seq<int>, x: int, i: nat, j: nat)
    requires i <= j <= |row|
    ensures ForwardInRow(row, x, i) <= ForwardInRow(row, x, j)
  {
    if i < j {
      ForwardInRowMono(row, x, i, j - 1);
    }
  }

  lemma {:induction false} ForwardMono(g: seq<seq<int>>, x: nat, y: nat)
    requires HasRows(g) && x <= y <= |g|
    ensures ForwardBefore(g, x) <= ForwardBefore(g, y)
  {
    if x < y {
      ForwardMono(g, x, y - 1);
    }
  }

  /** A number is left for the next edge. */
  lemma RoomForEdge(g: seq<seq<int>>, x: nat, i: nat)
    requires HasRows(g) && x < |g| && i < 3 && g[x][i] > x
    ensures ForwardBefore(g, x) + ForwardInRow(g[x], x, i) < EdgeCount(g)
  {
    ForwardInRowMono(g[x], x, i + 1, 3);
    ForwardMono(g, x + 1, |g|);
  }

  /** The numbering so far: `slot[e]` is the slot of v1[e] where e was assigned. */
  datatype Partial = Partial(ne: nat, eno: seq<seq<int>>, v1: seq<int>, v2: seq<int>, slot: seq<int>)

  ghost predicate Shaped(g: seq<seq<int>>, p: Partial) {
    && HasRows(g) && HasRows(p.eno) && |p.eno| == |g|
    && |p.v1| == |p.v2| == |p.slot| == p.ne
  }

  /** Slot k of row u carries the right number. */
  ghost predicate SlotDone(g: seq<seq<int>>, p: Partial, en: int, u: int, k: int)
    requires Shaped(g, p) && 0 <= u < |g| && 0 <= k < 3
  {
    var y, e := g[u][k], p.eno[u][k];
    if y < 0 then e == p.ne
    else if y > u then 0 <= e < en <= p.ne && p.v1[e] == u && p.v2[e] == y && p.slot[e] == k
    else y < |g| && Listed(g[y], u) && e == p.eno[y][SlotOf(g[y], u)]
  }

  ghost predicate RowDone(g: seq<seq<int>>, p: Partial, en: int, u: int)
    requires Shaped(g, p) && 0 <= u < |g|
  {
    SlotDone(g, p, en, u, 0) && SlotDone(g, p, en, u, 1) && SlotDone(g, p, en, u, 2)
  }

  /** Edge e was assigned at the slot recorded for it. */
  ghost predicate EdgeDone(g: seq<seq<int>>, p: Partial, e: int)
    requires Shaped(g, p) && 0 <= e < p.ne
  {
    && 0 <= p.v1[e] < |g| && 0 <= p.slot[e] < 3
    && p.eno[p.v1[e]][p.slot[e]] == e
    && g[p.v1[e]][p.slot[e]] == p.v2[e] > p.v1[e]
  }

  /** Rows below x and the slots of row x below i are done, using numbers below en. */
  ghost predicate Done(g: seq<seq<int>>, p: Partial, en: int, x: int, i: int) {
    && Shaped(g, p) && 0 <= en <= p.ne && 0 <= x <= |g| && 0 <= i <= 3
    && (forall u :: 0 <= u < x ==> RowDone(g, p, en, u))
    && (x < |g| ==> forall k :: 0 <= k < i ==> SlotDone(g, p, en, x, k))
    && (forall e :: 0 <= e < en ==> EdgeDone(g, p, e) && (p.v1[e] < x || (p.v1[e] == x && p.slot[e] < i)))
  }

  function SetSlot(p: Partial, x: int, i: int, e: int): Partial
    requires 0 <= x < |p.eno| && 0 <= i < |p.eno[x]|
  {
    p.(eno := p.eno[x := p.eno[x][i := e]])
  }

  lemma SetKeepsShape(g: seq<seq<int>>, p: Partial, x: int, i: int, e: int)
    requires Shaped(g, p) && 0 <= x < |g| && 0 <= i < 3
    ensures Shaped(g, SetSlot(p, x, i, e))
  {
  }

  /** Filling a slot with padding or with the number its other side already has. */
  lemma CopyStep(g: seq<seq<int>>, p: Partial, en: int, x: int, i: int, e: int)
    requires Simple(g) && Done(g, p, en, x, i) && x < |g| && i < 3 && g[x][i] < x
    requires g[x][i] < 0 ==> e == p.ne
    requires g[x][i] >= 0 ==> Listed(g[g[x][i]], x) && e == p.eno[g[x][i]][SlotOf(g[g[x][i]], x)]
    ensures Done(g, SetSlot(p, x, i, e), en, x, i + 1)
  {
    var q := SetSlot(p, x, i, e);
    SetKeepsShape(g, p, x, i, e);
    assert SimpleRow(g, x);
    forall u, k | 0 <= u < x && 0 <= k < 3 ensures SlotDone(g, q, en, u, k) {
      assert RowDone(g, p, en, u);
      assert SlotDone(g, p, en, u, k);
    }
    forall u | 0 <= u < x ensures RowDone(g, q, en, u) {
      assert SlotDone(g, q, en, u, 0) && SlotDone(g, q, en, u, 1) && SlotDone(g, q, en, u, 2);
    }
    forall k | 0 <= k < i + 1 ensures SlotDone(g, q, en, x, k) {
      if k < i { assert SlotDone(g, p, en, x, k); }
    }
    forall d | 0 <= d < en
      ensures EdgeDone(g, q, d) && (q.v1[d] < x || (q.v1[d] == x && q.slot[d] < i + 1))
    {
      assert EdgeDone(g, p, d);
    }
  }

  /** Giving the next number to an edge met at its smaller end. */
  lemma NewStep(g: seq<seq<int>>, p: Partial, en: int, x: int, i: int)
    requires Simple(g) && Done(g, p, en, x, i) && x < |g| && i < 3 && g[x][i] > x && en < p.ne
    ensures Done(g, SetSlot(p, x, i, en).(v1 := p.v1[en := x], v2 := p.v2[en := g[x][i]], slot := p.slot[en := i]),
                 en + 1, x, i + 1)
  {
    var q := SetSlot(p, x, i, en).(v1 := p.v1[en := x], v2 := p.v2[en := g[x][i]], slot := p.slot[en := i]);
    var en' := en + 1;
    SetKeepsShape(g, p, x, i, en);
    forall u, k | 0 <= u < x && 0 <= k < 3 ensures SlotDone(g, q, en', u, k) {
      assert RowDone(g, p, en, u);
      assert SlotDone(g, p, en, u, k);
    }
    forall u | 0 <= u < x ensures RowDone(g, q, en', u) {
      assert SlotDone(g, q, en', u, 0) && SlotDone(g, q, en', u, 1) && SlotDone(g, q, en', u, 2);
    }
    forall k | 0 <= k < i + 1 ensures SlotDone(g, q, en', x, k) {
      if k < i { assert SlotDone(g, p, en, x, k); }
    }
    forall d | 0 <= d < en + 1
      ensures EdgeDone(g, q, d) && (q.v1[d] < x || (q.v1[d] == x && q.slot[d] < i + 1))
    {
      if d < en { assert EdgeDone(g, p, d); }
    }
  }

  lemma NextRow(g: seq<seq<int>>, p: Partial, en: int, x: int)
    requires Done(g, p, en, x, 3) && x < |g|
    ensures Done(g, p, en, x + 1, 0)
  {
  }

  /** A slot that leads back to a smaller vertex shares that vertex's edge. */
  lemma BackSlot(g: seq<seq<int>>, p: Partial, u: int, k: int)
    requires Simple(g) && Done(g, p, p.ne, |g|, 0) && 0 <= u < |g| && 0 <= k < 3 && 0 <= g[u][k] < u
    ensures 0 <= p.eno[u][k] < p.ne && p.v1[p.eno[u][k]] == g[u][k] && p.v2[p.eno[u][k]] == u
  {
    var y := g[u][k];
    assert RowDone(g, p, p.ne, u) && RowDone(g, p, p.ne, y);
    assert SlotDone(g, p, p.ne, u, k);
    assert SlotDone(g, p, p.ne, y, SlotOf(g[y], u));
  }

  lemma FinishedNumbering(g: seq<seq<int>>, p: Partial)
    requires Simple(g) && Done(g, p, p.ne, |g|, 0)
    ensures Wf(Cub(|g|, p.ne, g, p.eno, p.v1, p.v2))
  {
    var G := Cub(|g|, p.ne, g, p.eno, p.v1, p.v2);
    forall u, k | 0 <= u < |g| && 0 <= k < 3 ensures NumberedSlot(G, u, k) {
      assert RowDone(g, p, p.ne, u) && SimpleRow(g, u);
      assert SlotDone(g, p, p.ne, u, k);
      if 0 <= g[u][k] < u { BackSlot(g, p, u, k); }
    }
    forall u | 0 <= u < |g| ensures NumberedRow(G, u) {
      assert NumberedSlot(G, u, 0) && NumberedSlot(G, u, 1) && NumberedSlot(G, u, 2);
    }
    forall e | 0 <= e < p.ne ensures NumberedEdge(G, e) {
      assert EdgeDone(g, p, e);
      var v, w, k := p.v1[e], p.v2[e], p.slot[e];
      assert SimpleRow(g, v);
      assert RowDone(g, p, p.ne, v) && SlotDone(g, p, p.ne, v, k);
      assert SimpleRow(g, w);
      var j := SlotOf(g[w], v);
      assert RowDone(g, p, p.ne, w) && SlotDone(g, p, p.ne, w, j);
      assert SlotOf(g[v], w) == k;
      assert p.eno[w][j] == e;
    }
  }

  /** Numbers the edges; `ne` is the number of edges of the graph. */
  method CubInit(g: seq<seq<int>>, ne: nat) returns (eno: seq<seq<int>>, v1: seq<int>, v2: seq<int>)
    requires Simple(g) && ne == EdgeCount(g)
    ensures Wf(Cub(|g|, ne, g, eno, v1, v2))
  {
    hide Simple, Done;
    var n := |g|;
    eno := seq(n, _ => [-1, -1, -1]);
    v1 := seq(ne, _ => -1);
    v2 := seq(ne, _ => -1);
    ghost var slot := seq(ne, _ => -1);
    var en, x := 0, 0;
    StartNumbering(g, Partial(ne, eno, v1, v2, slot));
    while x < n
      invariant 0 <= x <= n && HasRows(g) && en == ForwardBefore(g, x)
      invariant Done(g, Partial(ne, eno, v1, v2, slot), en, x, 0)
    {
      var i := 0;
      while i < 3
        invariant 0 <= i <= 3 && en == ForwardBefore(g, x) + ForwardInRow(g[x], x, i)
        invariant Done(g, Partial(ne, eno, v1, v2, slot), en, x, i)
      {
        ghost var p := Partial(ne, eno, v1, v2, slot);
        DoneShape(g, p, en, x, i);
        var y := g[x][i];
        RowFacts(g, x, i);
        if y < 0 {
          CopyStep(g, p, en, x, i, ne);
          eno := eno[x := eno[x][i := ne]];
        } else if y > x {
          RoomForEdge(g, x, i);
          NewStep(g, p, en, x, i);
          v1 := v1[en := x];
          v2 := v2[en := y];
          slot := slot[en := i];
          eno := eno[x := eno[x][i := en]];
          en := en + 1;
        } else {
          var j := 0;
          while g[y][j] != x
            invariant 0 <= j < 3 && forall k :: 0 <= k < j ==> g[y][k] != x
            decreases 3 - j
          {
            j := j + 1;
          }
          assert j == SlotOf(g[y], x);
          CopyStep(g, p, en, x, i, eno[y][j]);
          eno := eno[x := eno[x][i := eno[y][j]]];
        }
        i := i + 1;
      }
      NextRow(g, Partial(ne, eno, v1, v2, slot), en, x);
      x := x + 1;
    }
    FinishedNumbering(g, Partial(ne, eno, v1, v2, slot));
  }

  lemma StartNumbering(g: seq<seq<int>>, p: Partial)
    requires Simple(g) && HasRows(p.eno) && |p.eno| == |g| && |p.v1| == |p.v2| == |p.slot| == p.ne
    ensures HasRows(g) && Done(g, p, 0, 0, 0)
  {
  }

  lemma DoneShape(g: seq<seq<int>>, p: Partial, en: int, x: int, i: int)
    requires Done(g, p, en, x, i)
    ensures Shaped(g, p) && 0 <= en <= p.ne
  {
  }

  lemma RowFacts(g: seq<seq<int>>, x: int, i: int)
    requires Simple(g) && 0 <= x < |g| && 0 <= i < 3
    ensures -1 <= g[x][i] < |g| && g[x][i] != x
    ensures g[x][i] >= 0 ==> Listed(g[g[x][i]], x)
  {
    assert SimpleRow(g, x);
  }
}
