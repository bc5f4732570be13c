/** The state in which a search starts: nothing classified, every vertex a path of
    its own, and one rejected slot for the padding of each vertex of degree two. */
module HamStart {
  import opened CubGraph
  import opened HamState
  import opened HamTrail

  ghost predicate StartVertex(G: Cub, s: State, v: int)
    requires Wf(G) && Lengths(G, s) && 0 <= v < G.nv
  {
    && G.g[v][1] >= 0
    && s.din[v] == 0 && s.dout[v] == Bit(G.g[v][2] < 0) && s.farend[v] == v
  }

  ghost predicate StartState(G: Cub, s: State) {
    && Wf(G) && Lengths(G, s)
    && (forall e :: 0 <= e < G.ne ==> s.cls[e] == DUNNO)
    && (3 * G.nv > 2 * G.ne ==> s.cls[G.ne] == NO)
    && (forall v :: 0 <= v < G.nv ==> StartVertex(G, s, v))
  }

  /** Numbers slot i of row v. */
  function SlotIndex(G: Cub, v: int, e: int): int
    requires Sized(G) && 0 <= v < G.nv && Listed(G.eno[v], e)
  {
    3 * v + SlotOf(G.eno[v], e)
  }

  /** The slots taken by edges 0 .. k, two for each edge. */
  ghost function TakenSlots(G: Cub, k: nat): (c: seq<int>)
    requires Wf(G) && k <= G.ne
    ensures |c| == 2 * k
  {
    if k == 0 then [] else
      assert NumberedEdge(G, k - 1);
      TakenSlots(G, k - 1) + [SlotIndex(G, G.v1[k - 1], k - 1), SlotIndex(G, G.v2[k - 1], k - 1)]
  }

  /** x is the slot of an edge below k. */
  ghost predicate Taken(G: Cub, x: int, k: int)
    requires Wf(G)
  {
    0 <= x < 3 * G.nv && 0 <= G.eno[x / 3][x % 3] < k
  }

  lemma {:induction false} TakenSlotsDistinct(G: Cub, k: nat)
    requires Wf(G) && k <= G.ne
    ensures Distinct(TakenSlots(G, k))
    ensures forall x :: x in TakenSlots(G, k) ==> Taken(G, x, k)
  {
    if k > 0 {
      TakenSlotsDistinct(G, k - 1);
      var e := k - 1;
      assert NumberedEdge(G, e);
      var x, y := SlotIndex(G, G.v1[e], e), SlotIndex(G, G.v2[e], e);
      assert x / 3 == G.v1[e] && x % 3 == SlotOf(G.eno[G.v1[e]], e);
      assert y / 3 == G.v2[e] && y % 3 == SlotOf(G.eno[G.v2[e]], e);
      var c := TakenSlots(G, k - 1);
      forall z | z in TakenSlots(G, k) ensures Taken(G, z, k) {
        assert z in c || z == x || z == y;
        assert z in c ==> Taken(G, z, k - 1);
      }
      forall i, j | 0 <= i < j < 2 * k ensures TakenSlots(G, k)[i] != TakenSlots(G, k)[j] {
        if i < 2 * k - 2 {
          assert c[i] in c;
          assert Taken(G, c[i], k - 1);
        }
      }
    }
  }

  lemma PaddingNotTaken(G: Cub, v: int)
    requires Wf(G) && 0 <= v < G.nv && G.g[v][2] < 0
    ensures 3 * v + 2 < 3 * G.nv && !Taken(G, 3 * v + 2, G.ne)
  {
    Row(G, v);
    assert NumberedSlot(G, v, 2);
    assert (3 * v + 2) / 3 == v && (3 * v + 2) % 3 == 2;
  }

  lemma TakenInRange(G: Cub, x: int, k: int)
    requires Wf(G) && Taken(G, x, k)
    ensures 0 <= x < 3 * G.nv
  {
  }

  lemma PaddingLeft(G: Cub, v: int)
    requires Wf(G) && 0 <= v < G.nv && G.g[v][2] < 0
    ensures 3 * G.nv > 2 * G.ne
  {
    hide Taken, Wf, TakenSlots, Below, Image;
    TakenSlotsDistinct(G, G.ne);
    var c := TakenSlots(G, G.ne);
    ImageSize(c);
    PaddingNotTaken(G, v);
    var pad, size := 3 * v + 2, 3 * G.nv;
    var img, all := Image(c), Below(size);
    forall x | x in img ensures x in all && x != pad {
      assert Taken(G, x, G.ne);
      TakenInRange(G, x, G.ne);
    }
    assert img <= all - {pad};
    SubsetSize(img, all - {pad});
  }

  /** The slots of edges below k are all among those taken. */
  lemma {:induction false} TakenListed(G: Cub, x: int, k: nat)
    requires Wf(G) && k <= G.ne && Taken(G, x, k)
    ensures x in TakenSlots(G, k)
  {
    var e := k - 1;
    if Taken(G, x, e) {
      TakenListed(G, x, e);
      assert TakenSlots(G, k)[..2 * e] == TakenSlots(G, e);
    } else {
      var v, i := x / 3, x % 3;
      Row(G, v);
      assert NumberedSlot(G, v, i) && NumberedEdge(G, e);
      var j := SlotOf(G.eno[v], e);
      if i != j {
        SlotsDiffer(G, v, i, j);
      }
      assert x == SlotIndex(G, v, e);
      assert TakenSlots(G, k)[2 * e] == SlotIndex(G, G.v1[e], e) &&
          TakenSlots(G, k)[2 * e + 1] == SlotIndex(G, G.v2[e], e);
    }
  }

  lemma NoneLeft(G: Cub)
    requires Wf(G) && forall v :: 0 <= v < G.nv ==> G.g[v][2] >= 0
    ensures 3 * G.nv <= 2 * G.ne
  {
    hide Wf, TakenSlots, Below, Image;
    TakenSlotsDistinct(G, G.ne);
    var c := TakenSlots(G, G.ne);
    ImageSize(c);
    var all, img := Below(3 * G.nv), Image(c);
    forall x | x in all ensures x in img {
      SlotTaken(G, x);
      TakenListed(G, x, G.ne);
    }
    SubsetSize(all, img);
  }

  lemma SlotTaken(G: Cub, x: int)
    requires Wf(G) && 0 <= x < 3 * G.nv && forall v :: 0 <= v < G.nv ==> G.g[v][2] >= 0
    ensures Taken(G, x, G.ne)
  {
    var v, i := x / 3, x % 3;
    Row(G, v);
    assert NumberedSlot(G, v, i);
  }

  /** Every edge takes two slots: a slot is left if and only if some vertex has a missing
      neighbour. */
  lemma Handshake(G: Cub)
    requires Wf(G)
    ensures |G.g| == G.nv && forall v :: 0 <= v < G.nv ==> |G.g[v]| == 3
    ensures 3 * G.nv > 2 * G.ne <==> exists v :: 0 <= v < G.nv && G.g[v][2] < 0
  {
    if v :| 0 <= v < G.nv && G.g[v][2] < 0 {
      PaddingLeft(G, v);
    } else {
      NoneLeft(G);
    }
  }

  lemma StartConsistent(G: Cub, s: State)
    requires StartState(G, s)
    ensures Consistent(G, s)
  {
    forall v | 0 <= v < G.nv ensures 0 <= s.farend[v] < G.nv {
      assert StartVertex(G, s, v);
    }
    forall v | 0 <= v < G.nv ensures Counted(G, s, v) {
      assert StartVertex(G, s, v);
      Row(G, v);
      assert NumberedSlot(G, v, 0) && NumberedSlot(G, v, 1) && NumberedSlot(G, v, 2);
      if G.g[v][2] < 0 {
        Handshake(G);
      }
    }
  }

  lemma StartOpen(G: Cub, s: State)
    requires StartState(G, s) && Consistent(G, s)
    ensures Mode(G, s, 0, -1, -1)
  {
    var P := map v | v in Below(G.nv) :: [v];
    var owner := seq(G.nv, v => v);
    assert P.Keys == Below(G.nv);
    assert |P| == |P.Keys|;
    forall id ensures PartOk(G, s, P, owner, id, -1, -1) {
      if id in P {
        assert StartVertex(G, s, id);
        Row(G, id);
      }
    }
    assert Partition(G, s, 0, P, owner, -1, -1);
  }

  lemma StartStable(G: Cub, s: State, k: seq<int>)
    requires StartState(G, s)
    requires forall v :: 0 <= v < G.nv && G.g[v][2] < 0 ==> v in k
    ensures StableExcept(s, k)
  {
    forall v | 0 <= v < |s.din| ensures v in k || Stable(s, v) {
      assert StartVertex(G, s, v);
    }
  }

  /** A graph with a Hamiltonian cycle has no vertex with fewer than two neighbours. */
  lemma TwoNeighbours(G: Cub, v: int, c: seq<int>)
    requires Wf(G) && 0 <= v < G.nv && IsHamCycle(G, c)
    ensures G.g[v][1] >= 0
  {
    HamCycleIsHamSet(G, c);
    Row(G, v);
    assert NumberedSlot(G, v, 0) && NumberedSlot(G, v, 1) && NumberedSlot(G, v, 2);
    assert Degree(G, EdgesOf(G, c), v) == 2;
  }
}
