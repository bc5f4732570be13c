/** What a finished search state says about the ring of chosen edges: which edges
    it uses, and how it is read off starting from vertex 0. */
module HamRing {
  import opened CubGraph
  import opened HamState
  import opened HamTrail

  /** The state in which a search ends with a cycle. */
  ghost predicate Finished(G: Cub, s: State) {
    && Consistent(G, s) && Closed(G, s, G.nv) && StableExcept(s, [])
  }

  /** The chosen slots of a ring vertex are those of its two neighbours. */
  lemma RingSlots(G: Cub, s: State, c: seq<int>, k: int)
    requires Consistent(G, s) && Ring(G, s.cls, c) && 0 <= k < |c|
    requires 0 <= c[k] < G.nv && s.din[c[k]] == 2
    ensures c[Next(k, |c|)] != c[Prev(k, |c|)]
    ensures forall i :: 0 <= i < 3 ==> 0 <= G.eno[c[k]][i] <= G.ne
    ensures forall i :: 0 <= i < 3 ==>
              (s.cls[G.eno[c[k]][i]] == YES <==> G.g[c[k]][i] == c[Next(k, |c|)] || G.g[c[k]][i] == c[Prev(k, |c|)])
  {
    var n := |c|;
    var p := Prev(k, n);
    assert Next(p, n) == k;
    assert RingAt(G, s.cls, c, k) && RingAt(G, s.cls, c, p);
    YesLinkSym(G, s.cls, c[p], c[k]);
    Row(G, c[k]);
    assert Counted(G, s, c[k]);
    assert NumberedSlot(G, c[k], 0) && NumberedSlot(G, c[k], 1) && NumberedSlot(G, c[k], 2);
    assert c[Next(k, n)] != c[p];
  }

  /** The chosen edges are exactly the edges of the ring. */
  lemma RingEdges(G: Cub, s: State, c: seq<int>, e: int)
    requires Consistent(G, s) && Ring(G, s.cls, c) && 0 <= e < G.ne
    requires forall v :: 0 <= v < G.nv ==> s.din[v] == 2
    ensures s.cls[e] == YES <==> Uses(G, c, e)
  {
    assert NumberedEdge(G, e);
    var v := G.v1[e];
    forall i | 0 <= i < |c| ensures 0 <= c[i] < G.nv { assert StepOk(G, c, i); }
    AllOccur(c, |c|, v);
    var k :| 0 <= k < |c| && c[k] == v;
    var i := SlotOf(G.eno[v], e);
    RingSlots(G, s, c, k);
    CycleSlot(G, c, k, i);
  }

  lemma AllDecided(G: Cub, s: State, e: int)
    requires Finished(G, s) && 0 <= e < G.ne
    ensures s.cls[e] != DUNNO
  {
    assert NumberedEdge(G, e);
    var v := G.v1[e];
    Row(G, v);
    assert v in [] || Stable(s, v);
    assert Counted(G, s, v);
    assert NumberedSlot(G, v, 0) && NumberedSlot(G, v, 1) && NumberedSlot(G, v, 2);
  }

  // --- Turning and reversing a ring -----------------------------------------

  lemma RingStep(G: Cub, cls: seq<int>, c: seq<int>, i: int)
    requires Wf(G) && |cls| == G.ne + 1 && 0 <= i < |c| && RingAt(G, cls, c, i)
    ensures StepOk(G, c, i)
  {
    Row(G, c[i]);
  }

  lemma RingFromLinks(G: Cub, cls: seq<int>, r: seq<int>)
    requires Wf(G) && |cls| == G.ne + 1 && |r| == G.nv >= 3 && Distinct(r)
    requires forall i :: 0 <= i < |r| ==> RingAt(G, cls, r, i)
    ensures Ring(G, cls, r)
  {
    forall i | 0 <= i < |r| ensures StepOk(G, r, i) {
      assert RingAt(G, cls, r, i);
      RingStep(G, cls, r, i);
    }
  }

  lemma Turn(G: Cub, cls: seq<int>, c: seq<int>, k: int) returns (r: seq<int>)
    requires Wf(G) && |cls| == G.ne + 1 && Ring(G, cls, c) && 0 <= k < |c|
    ensures Ring(G, cls, r) && r[0] == c[k]
  {
    var n := |c|;
    r := c[k..] + c[..k];
    forall i | 0 <= i < n ensures RingAt(G, cls, r, i) {
      var j := if k + i < n then k + i else k + i - n;
      assert RingAt(G, cls, c, j);
      assert r[i] == c[j] && r[Next(i, n)] == c[Next(j, n)];
    }
    RingFromLinks(G, cls, r);
  }

  lemma Flip(G: Cub, cls: seq<int>, c: seq<int>) returns (r: seq<int>)
    requires Wf(G) && |cls| == G.ne + 1 && Ring(G, cls, c)
    ensures Ring(G, cls, r) && r[0] == c[0] && r[1] == c[|c| - 1]
  {
    var n := |c|;
    r := [c[0]] + Rev(c[1..]);
    forall i | 0 <= i < n ensures RingAt(G, cls, r, i) {
      var j := if i == 0 then n - 1 else n - i - 1;
      assert RingAt(G, cls, c, j);
      YesLinkSym(G, cls, c[j], c[Next(j, n)]);
    }
    assert forall i :: 0 < i < n ==> r[i] == c[n - i];
    RingFromLinks(G, cls, r);
  }

  /** The ring through 0 that leaves 0 towards the chosen neighbour x. */
  lemma RingFrom(G: Cub, s: State, c: seq<int>, j: int) returns (r: seq<int>)
    requires Consistent(G, s) && Ring(G, s.cls, c) && s.din[0] == 2 && 0 <= j < 3
    requires 0 <= G.eno[0][j] <= G.ne && s.cls[G.eno[0][j]] == YES
    ensures Ring(G, s.cls, r) && r[0] == 0 && r[1] == G.g[0][j]
  {
    forall i | 0 <= i < |c| ensures 0 <= c[i] < G.nv { assert StepOk(G, c, i); }
    AllOccur(c, |c|, 0);
    var k :| 0 <= k < |c| && c[k] == 0;
    r := Turn(G, s.cls, c, k);
    RingSlots(G, s, r, 0);
    if G.g[0][j] != r[1] {
      r := Flip(G, s.cls, r);
    }
  }

  /** One step of reading the ring off: the chosen neighbour we did not come from. */
  lemma WalkStep(G: Cub, s: State, r: seq<int>, i: int, j: int)
    requires Consistent(G, s) && Ring(G, s.cls, r) && 0 < i < |r| && 0 <= r[i] < G.nv && s.din[r[i]] == 2
    requires 0 <= j < 3 && 0 <= G.eno[r[i]][j] <= G.ne
    requires G.g[r[i]][j] != r[i - 1] && s.cls[G.eno[r[i]][j]] == YES
    ensures G.g[r[i]][j] == r[Next(i, |r|)]
  {
    RingSlots(G, s, r, i);
  }

  /** Such a neighbour exists. */
  lemma WalkOn(G: Cub, s: State, v: int, w: int)
    requires Consistent(G, s) && 0 <= v < G.nv && s.din[v] == 2
    ensures forall j :: 0 <= j < 3 ==> 0 <= G.eno[v][j] <= G.ne
    ensures exists j :: 0 <= j < 3 && G.g[v][j] != w && s.cls[G.eno[v][j]] == YES
  {
    Row(G, v);
    assert Counted(G, s, v);
    assert NumberedSlot(G, v, 0) && NumberedSlot(G, v, 1) && NumberedSlot(G, v, 2);
    var j := if s.cls[G.eno[v][0]] == YES && G.g[v][0] != w then 0
             else if s.cls[G.eno[v][1]] == YES && G.g[v][1] != w then 1 else 2;
    assert G.g[v][j] != w && s.cls[G.eno[v][j]] == YES;
  }
}
