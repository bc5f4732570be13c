/** The undo trail of the search, the resting condition of a vertex, and the
    relations between the states before and after a piece of search. */
module HamTrail {
  import opened CubGraph
  import opened HamState

  ghost predicate Lengths(G: Cub, s: State) {
    |s.cls| == G.ne + 1 && |s.din| == |s.dout| == |s.farend| == G.nv
  }

  /** Takes back the classification of edge p. */
  ghost function UndoEdge(G: Cub, s: State, p: int): State
    requires Wf(G) && Lengths(G, s) && 0 <= p < G.ne
  {
    assert NumberedEdge(G, p);
    var a, b := G.v1[p], G.v2[p];
    if s.cls[p] == YES then
      s.(cls := s.cls[p := DUNNO], din := s.din[a := s.din[a] - 1][b := s.din[b] - 1])
    else
      s.(cls := s.cls[p := DUNNO], dout := s.dout[a := s.dout[a] - 1][b := s.dout[b] - 1])
  }

  /** Popping the trail t down to length k turns s back into s0. A record is an
      edge number, or a vertex coded as -x-1 above its former far end. */
  ghost predicate Rewinds(G: Cub, s: State, t: seq<int>, s0: State, k: int)
    requires Wf(G)
    decreases |t|
  {
    if |t| <= k || |t| == 0 then
      |t| == k && s == s0
    else
      var p := t[|t| - 1];
      if p >= 0 then
        p < G.ne && Lengths(G, s) && Rewinds(G, UndoEdge(G, s, p), t[..|t| - 1], s0, k)
      else
        && |t| >= 2 && Lengths(G, s) && -p - 1 < G.nv
        && Rewinds(G, s.(farend := s.farend[-p - 1 := t[|t| - 2]]), t[..|t| - 2], s0, k)
  }

  /** The trail t1 extends t0, and its extra records lead from s1 back to s0. */
  ghost predicate Leads(G: Cub, s0: State, t0: seq<int>, s1: State, t1: seq<int>) {
    Wf(G) && t0 <= t1 && Rewinds(G, s1, t1, s0, |t0|)
  }

  /** Five records for a used edge, one for a rejected one. */
  function Cost(x: int): nat {
    if x == YES then 5 else if x == NO then 1 else 0
  }

  /** What the first n edges may take on the trail. */
  function Spent(cls: seq<int>, n: nat): nat
    requires n <= |cls|
  {
    if n == 0 then 0 else Spent(cls, n - 1) + Cost(cls[n - 1])
  }

  lemma {:induction false} SpentBound(cls: seq<int>, n: nat)
    requires n <= |cls|
    ensures Spent(cls, n) <= 5 * n
  {
    if n > 0 {
      SpentBound(cls, n - 1);
    }
  }

  lemma {:induction false} SpentChange(cls: seq<int>, e: nat, x: int, n: nat)
    requires e < |cls| && cls[e] == DUNNO && n <= |cls|
    ensures Spent(cls[e := x], n) == Spent(cls, n) + if e < n then Cost(x) else 0
  {
    if n > 0 {
      SpentChange(cls, e, x, n - 1);
    }
  }

  /** The trail has room for its records. */
  ghost predicate Rationed(G: Cub, s: State, t: seq<int>) {
    G.ne <= |s.cls| && |t| <= Spent(s.cls, G.ne)
  }

  lemma NothingSpent(G: Cub, s: State)
    requires G.ne <= |s.cls|
    ensures Rationed(G, s, [])
  {
  }

  /** So it never holds more than five records for each edge. */
  lemma TrailBound(G: Cub, s: State, t: seq<int>)
    requires Rationed(G, s, t)
    ensures |t| <= 5 * G.ne
  {
    SpentBound(s.cls, G.ne);
  }

  /** Such a trail that takes no more than the edges classified on the way may take. */
  ghost predicate Extends(G: Cub, s0: State, t0: seq<int>, s1: State, t1: seq<int>) {
    && Leads(G, s0, t0, s1, t1) && G.ne <= |s0.cls| && G.ne <= |s1.cls|
    && |t1| + Spent(s0.cls, G.ne) <= |t0| + Spent(s1.cls, G.ne)
  }

  lemma ExtendsRationed(G: Cub, s0: State, t0: seq<int>, s1: State, t1: seq<int>)
    requires Extends(G, s0, t0, s1, t1) && Rationed(G, s0, t0)
    ensures Rationed(G, s1, t1)
  {
  }

  lemma {:induction false} RewindsTrans(G: Cub, s0: State, k: int, s1: State, t1: seq<int>, s2: State, t2: seq<int>)
    requires Wf(G) && 0 <= k <= |t1| && t1 <= t2
    requires Rewinds(G, s1, t1, s0, k) && Rewinds(G, s2, t2, s1, |t1|)
    ensures Rewinds(G, s2, t2, s0, k)
    decreases |t2|
  {
    if |t2| == |t1| {
      assert t1 == t2;
    } else {
      var p := t2[|t2| - 1];
      if p >= 0 {
        RewindsTrans(G, s0, k, s1, t1, UndoEdge(G, s2, p), t2[..|t2| - 1]);
      } else {
        var s := s2.(farend := s2.farend[-p - 1 := t2[|t2| - 2]]);
        RewindsLength(G, s, t2[..|t2| - 2], s1, |t1|);
        RewindsTrans(G, s0, k, s1, t1, s, t2[..|t2| - 2]);
      }
    }
  }

  lemma RewindsLength(G: Cub, s: State, t: seq<int>, s0: State, k: int)
    requires Wf(G) && Rewinds(G, s, t, s0, k)
    ensures k <= |t|
  {
  }

  lemma ExtendsTrans(G: Cub, s0: State, t0: seq<int>, s1: State, t1: seq<int>, s2: State, t2: seq<int>)
    requires Wf(G) && Extends(G, s0, t0, s1, t1) && Extends(G, s1, t1, s2, t2)
    ensures Extends(G, s0, t0, s2, t2)
  {
    RewindsTrans(G, s0, |t0|, s1, t1, s2, t2);
  }

  /** Rewinding is deterministic. */
  lemma {:induction false} RewindsUnique(G: Cub, s: State, t: seq<int>, a: State, b: State, k: int)
    requires Wf(G) && Rewinds(G, s, t, a, k) && Rewinds(G, s, t, b, k)
    ensures a == b
    decreases |t|
  {
    if |t| > k && |t| > 0 {
      var p := t[|t| - 1];
      if p >= 0 {
        RewindsUnique(G, UndoEdge(G, s, p), t[..|t| - 1], a, b, k);
      } else {
        RewindsUnique(G, s.(farend := s.farend[-p - 1 := t[|t| - 2]]), t[..|t| - 2], a, b, k);
      }
    }
  }

  lemma UndoOut(G: Cub, s: State, v: int, w: int, en: int)
    requires Wf(G) && Lengths(G, s) && Ends(G, en, v, w) && s.cls[en] == DUNNO
    requires 0 <= v < G.nv && 0 <= w < G.nv && v != w
    ensures UndoEdge(G, MarkOut(s, v, w, en), en) == s
  {
    var s1, s2 := MarkOut(s, v, w, en), UndoEdge(G, MarkOut(s, v, w, en), en);
    assert s2.cls == s.cls && s2.dout == s.dout;
  }

  lemma UndoIn(G: Cub, s: State, v: int, w: int, en: int)
    requires Wf(G) && Lengths(G, s) && Ends(G, en, v, w) && s.cls[en] == DUNNO
    requires 0 <= v < G.nv && 0 <= w < G.nv && v != w
    ensures UndoEdge(G, MarkIn(s, v, w, en), en) == s
  {
    var s1, s2 := MarkIn(s, v, w, en), UndoEdge(G, MarkIn(s, v, w, en), en);
    assert s2.cls == s.cls && s2.din == s.din;
  }

  /** One more edge record undoes one more classification. */
  lemma ExtendsEdge(G: Cub, s: State, t: seq<int>, s1: State, en: int)
    requires Wf(G) && Lengths(G, s1) && 0 <= en < G.ne && UndoEdge(G, s1, en) == s
    requires s1.cls[en] == YES || s1.cls[en] == NO
    ensures Extends(G, s, t, s1, t + [en])
    ensures Spent(s1.cls, G.ne) == Spent(s.cls, G.ne) + Cost(s1.cls[en])
  {
    assert s1.cls == s.cls[en := s1.cls[en]];
    SpentChange(s.cls, en, s1.cls[en], G.ne);
    assert (t + [en])[..|t|] == t;
    assert Rewinds(G, s, t, s, |t|);
  }

  lemma ExtendsLink(G: Cub, s: State, t: seq<int>, a: int, b: int)
    requires Wf(G) && Lengths(G, s) && 0 <= a < G.nv && 0 <= b < G.nv
    ensures Leads(G, s, t, Link(s, a, b), t + [s.farend[a], -a - 1, s.farend[b], -b - 1])
  {
    var s2 := Link(s, a, b);
    var t1 := t + [s.farend[a], -a - 1];
    var t2 := t + [s.farend[a], -a - 1, s.farend[b], -b - 1];
    var s1 := s2.(farend := s2.farend[b := s.farend[b]]);
    assert t2[..|t2| - 2] == t1 && t1[..|t1| - 2] == t;
    assert s1.farend[a := s.farend[a]] == s.farend;
    assert Rewinds(G, s, t, s, |t|);
    assert Rewinds(G, s1, t1, s, |t|);
  }

  /** A used edge pays for the four records of the path it joins. */
  lemma ExtendsJoin(G: Cub, s0: State, t0: seq<int>, s1: State, t1: seq<int>, s2: State, t2: seq<int>)
    requires Extends(G, s0, t0, s1, t1) && Leads(G, s1, t1, s2, t2)
    requires |t1| == |t0| + 1 && |t2| == |t1| + 4 && s2.cls == s1.cls
    requires Spent(s1.cls, G.ne) == Spent(s0.cls, G.ne) + 5
    ensures Extends(G, s0, t0, s2, t2)
  {
    RewindsTrans(G, s0, |t0|, s1, t1, s2, t2);
  }

  // --- Resting vertices -----------------------------------------------------

  /** Propagation has nothing left to do at v. */
  ghost predicate Stable(s: State, v: int) {
    && 0 <= v < |s.din| == |s.dout|
    && ((s.dout[v] == 0 && s.din[v] <= 1) || (s.dout[v] == 1 && s.din[v] == 2))
  }

  ghost predicate StableExcept(s: State, pending: seq<int>) {
    && |s.din| == |s.dout|
    && forall v :: 0 <= v < |s.din| ==> v in pending || Stable(s, v)
  }

  // --- Before and after -----------------------------------------------------

  /** Every Hamiltonian edge set that agrees with c0 also agrees with c1. */
  ghost predicate Forces(G: Cub, c0: seq<int>, c1: seq<int>) {
    && Sized(G) && |c0| >= G.ne && |c1| >= G.ne
    && forall H :: HamSet(G, H) && Compat(G, c0, H) ==> Compat(G, c1, H)
  }

  ghost predicate NoHam(G: Cub, cls: seq<int>) {
    && Sized(G) && |cls| >= G.ne
    && forall H :: HamSet(G, H) ==> !Compat(G, cls, H)
  }

  /** Classified edges keep their class. */
  ghost predicate Grows(c0: seq<int>, c1: seq<int>) {
    |c0| == |c1| && forall e :: 0 <= e < |c0| && c0[e] != DUNNO ==> c1[e] == c0[e]
  }

  ghost function Unclassified(cls: seq<int>): nat {
    if cls == [] then 0 else Bit(cls[|cls| - 1] == DUNNO) + Unclassified(cls[..|cls| - 1])
  }

  lemma {:induction false} ClassifyCount(cls: seq<int>, e: int, x: int)
    requires 0 <= e < |cls| && cls[e] == DUNNO && x != DUNNO
    ensures Unclassified(cls[e := x]) == Unclassified(cls) - 1
  {
    var n := |cls| - 1;
    if e == n {
      assert cls[e := x][..n] == cls[..n];
    } else {
      ClassifyCount(cls[..n], e, x);
      assert cls[e := x][..n] == cls[..n][e := x];
    }
  }

  /** An overloaded vertex rules out every Hamiltonian edge set. */
  lemma Overloaded(G: Cub, s: State, v: int)
    requires Consistent(G, s) && 0 <= v < G.nv && (s.din[v] > 2 || s.dout[v] > 1)
    ensures NoHam(G, s.cls)
  {
    forall H | HamSet(G, H) && Compat(G, s.cls, H) ensures false {
      LocalDegree(G, s, H, v);
    }
  }

  /** If every unclassified edge at a vertex that rejects none must be used, no
      Hamiltonian edge set is left: one of the three edges must be rejected. */
  lemma BranchesCover(G: Cub, s: State, v: int)
    requires Consistent(G, s) && 0 <= v < G.nv && s.dout[v] == 0
    requires forall i :: 0 <= i < 3 ==> 0 <= G.eno[v][i] <= G.ne
    requires forall i, H :: 0 <= i < 3 && s.cls[G.eno[v][i]] == DUNNO && HamSet(G, H) && Compat(G, s.cls, H) ==>
              G.eno[v][i] in H
    ensures NoHam(G, s.cls)
  {
    forall H | HamSet(G, H) && Compat(G, s.cls, H) ensures false {
      Row(G, v);
      assert Counted(G, s, v);
      assert NumberedSlot(G, v, 0) && NumberedSlot(G, v, 1) && NumberedSlot(G, v, 2);
      assert Degree(G, H, v) == 2;
      LocalDegree(G, s, H, v);
    }
  }
}
