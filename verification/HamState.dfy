/** The search state of the Hamiltonian-cycle solver as a value: edge classes,
    the in/out degrees they induce, and the table of far ends of the paths that
    the chosen edges form. */
module HamState {
  import opened CubGraph

  datatype State = State(cls: seq<int>, din: seq<int>, dout: seq<int>, farend: seq<int>)

  // --- Counters -------------------------------------------------------------

  ghost predicate Shaped(G: Cub, s: State) {
    && |s.cls| == G.ne + 1 && |s.din| == |s.dout| == |s.farend| == G.nv
    && (forall e :: 0 <= e < G.ne ==> s.cls[e] == YES || s.cls[e] == DUNNO || s.cls[e] == NO)
    && (forall v :: 0 <= v < G.nv ==> 0 <= s.farend[v] < G.nv)
  }

  /** The number of slots of v whose edge has class `val`. */
  ghost function Count(G: Cub, cls: seq<int>, v: int, val: int): int
    requires Wf(G) && |cls| == G.ne + 1 && 0 <= v < G.nv
  {
    Row(G, v);
    Bit(cls[G.eno[v][0]] == val) + Bit(cls[G.eno[v][1]] == val) + Bit(cls[G.eno[v][2]] == val)
  }

  /** din and dout are the real counts at v; padding counts as out. */
  ghost predicate Counted(G: Cub, s: State, v: int)
    requires Wf(G) && Shaped(G, s) && 0 <= v < G.nv
  {
    && G.g[v][0] >= 0 && G.g[v][1] >= 0 && (G.g[v][2] < 0 ==> s.cls[G.ne] == NO)
    && s.din[v] == Count(G, s.cls, v, YES)
    && s.dout[v] == Count(G, s.cls, v, NO)
  }

  ghost predicate Consistent(G: Cub, s: State) {
    Wf(G) && Shaped(G, s) && forall v :: 0 <= v < G.nv ==> Counted(G, s, v)
  }

  function MarkOut(s: State, v: int, w: int, en: int): State
    requires 0 <= v < |s.dout| && 0 <= w < |s.dout| && 0 <= en < |s.cls|
  {
    s.(cls := s.cls[en := NO], dout := s.dout[v := s.dout[v] + 1][w := s.dout[w] + 1])
  }

  function MarkIn(s: State, v: int, w: int, en: int): State
    requires 0 <= v < |s.din| && 0 <= w < |s.din| && 0 <= en < |s.cls|
  {
    s.(cls := s.cls[en := YES], din := s.din[v := s.din[v] + 1][w := s.din[w] + 1])
  }

  function Link(s: State, a: int, b: int): State
    requires 0 <= a < |s.farend| && 0 <= b < |s.farend|
  {
    s.(farend := s.farend[a := b][b := a])
  }

  /** Reclassifying an unclassified edge moves one unit at each of its ends. */
  lemma CountChange(G: Cub, cls: seq<int>, u: int, v: int, w: int, en: int, val: int, x: int)
    requires Wf(G) && |cls| == G.ne + 1 && 0 <= u < G.nv
    requires Ends(G, en, v, w) && cls[en] == DUNNO && val != DUNNO && x != DUNNO
    ensures Count(G, cls[en := val], u, x) ==
            Count(G, cls, u, x) + Bit(x == val && (u == v || u == w))
  {
    Row(G, u);
    assert NumberedEdge(G, en);
    assert NumberedSlot(G, u, 0) && NumberedSlot(G, u, 1) && NumberedSlot(G, u, 2);
    if u == v || u == w {
      var i := SlotOf(G.eno[u], en);
      forall j | 0 <= j < 3 && j != i ensures G.eno[u][j] != en {
        SlotsDiffer(G, u, i, j);
      }
    }
  }

  lemma MarkOutConsistent(G: Cub, s: State, v: int, w: int, en: int)
    requires Consistent(G, s) && Ends(G, en, v, w) && s.cls[en] == DUNNO
    ensures 0 <= v < G.nv && 0 <= w < G.nv && v != w && Consistent(G, MarkOut(s, v, w, en))
  {
    assert NumberedEdge(G, en);
    var s1 := MarkOut(s, v, w, en);
    forall u | 0 <= u < G.nv ensures Counted(G, s1, u) {
      assert Counted(G, s, u);
      CountChange(G, s.cls, u, v, w, en, NO, YES);
      CountChange(G, s.cls, u, v, w, en, NO, NO);
    }
  }

  lemma MarkInConsistent(G: Cub, s: State, v: int, w: int, en: int)
    requires Consistent(G, s) && Ends(G, en, v, w) && s.cls[en] == DUNNO
    ensures 0 <= v < G.nv && 0 <= w < G.nv && v != w && Consistent(G, MarkIn(s, v, w, en))
  {
    assert NumberedEdge(G, en);
    var s1 := MarkIn(s, v, w, en);
    forall u | 0 <= u < G.nv ensures Counted(G, s1, u) {
      assert Counted(G, s, u);
      CountChange(G, s.cls, u, v, w, en, YES, YES);
      CountChange(G, s.cls, u, v, w, en, YES, NO);
    }
  }

  lemma LinkConsistent(G: Cub, s: State, a: int, b: int)
    requires Consistent(G, s) && 0 <= a < G.nv && 0 <= b < G.nv
    ensures Consistent(G, Link(s, a, b))
  {
    var s1 := Link(s, a, b);
    forall u | 0 <= u < G.nv ensures Counted(G, s1, u) {
      assert Counted(G, s, u);
    }
  }

  // --- Local consequences of having degree two ------------------------------

  /** What a Hamiltonian edge set that agrees with the classes looks like at v. */
  lemma LocalDegree(G: Cub, s: State, H: set<int>, v: int)
    requires Consistent(G, s) && HamSet(G, H) && Compat(G, s.cls, H) && 0 <= v < G.nv
    ensures s.din[v] <= 2 && s.dout[v] <= 1
    ensures forall i :: 0 <= i < 3 ==> 0 <= G.eno[v][i] <= G.ne
    ensures forall i :: 0 <= i < 3 && s.cls[G.eno[v][i]] == YES ==> G.eno[v][i] in H
    ensures forall i :: 0 <= i < 3 && s.cls[G.eno[v][i]] == NO ==> G.eno[v][i] !in H
    ensures s.dout[v] == 1 ==> forall i :: 0 <= i < 3 && s.cls[G.eno[v][i]] != NO ==> G.eno[v][i] in H
    ensures s.din[v] == 2 ==> forall i :: 0 <= i < 3 && s.cls[G.eno[v][i]] != YES ==> G.eno[v][i] !in H
  {
    Row(G, v);
    assert Counted(G, s, v);
    assert NumberedSlot(G, v, 0) && NumberedSlot(G, v, 1) && NumberedSlot(G, v, 2);
    assert Degree(G, H, v) == 2;
    assert G.ne !in H;
  }

  // --- Paths ----------------------------------------------------------------

  ghost predicate YesSlot(G: Cub, cls: seq<int>, a: int, b: int, i: int)
    requires Wf(G) && |cls| == G.ne + 1 && 0 <= a < G.nv && 0 <= i < 3
  {
    Row(G, a);
    G.g[a][i] == b && cls[G.eno[a][i]] == YES
  }

  /** a and b are joined by an edge classified YES. */
  ghost predicate YesLink(G: Cub, cls: seq<int>, a: int, b: int)
    requires Wf(G) && |cls| == G.ne + 1
  {
    && 0 <= a < G.nv && 0 <= b < G.nv
    && (YesSlot(G, cls, a, b, 0) || YesSlot(G, cls, a, b, 1) || YesSlot(G, cls, a, b, 2))
  }

  lemma YesLinkSym(G: Cub, cls: seq<int>, a: int, b: int)
    requires Wf(G) && |cls| == G.ne + 1 && YesLink(G, cls, a, b)
    ensures YesLink(G, cls, b, a)
  {
    var i := if YesSlot(G, cls, a, b, 0) then 0 else if YesSlot(G, cls, a, b, 1) then 1 else 2;
    var w, j := OtherSide(G, a, i);
    assert YesSlot(G, cls, b, a, j);
  }

  ghost predicate LinkAt(G: Cub, cls: seq<int>, p: seq<int>, k: int)
    requires Wf(G) && |cls| == G.ne + 1
  {
    0 <= k < |p| - 1 ==> YesLink(G, cls, p[k], p[k + 1])
  }

  predicate Distinct(p: seq<int>) {
    forall i, j :: 0 <= i < j < |p| ==> p[i] != p[j]
  }

  /** p is a maximal path of YES edges with its two ends recorded in farend. */
  ghost predicate PathOk(G: Cub, s: State, p: seq<int>)
    requires Wf(G) && Shaped(G, s)
  {
    && |p| > 0
    && (forall k :: 0 <= k < |p| ==> 0 <= p[k] < G.nv)
    && Distinct(p)
    && (forall k :: 0 <= k < |p| - 1 ==> LinkAt(G, s.cls, p, k))
    && (forall k :: 0 <= k < |p| ==> s.din[p[k]] == Bit(k > 0) + Bit(k < |p| - 1))
    && s.farend[p[0]] == p[|p| - 1] && s.farend[p[|p| - 1]] == p[0]
  }

  /** The two ends of p are not joined by an unclassified edge. */
  ghost predicate Chordless(G: Cub, cls: seq<int>, p: seq<int>)
    requires Wf(G) && |cls| == G.ne + 1 && |p| > 0 && 0 <= p[0] < G.nv
  {
    Row(G, p[0]);
    && (G.g[p[0]][0] == p[|p| - 1] ==> cls[G.eno[p[0]][0]] != DUNNO)
    && (G.g[p[0]][1] == p[|p| - 1] ==> cls[G.eno[p[0]][1]] != DUNNO)
    && (G.g[p[0]][2] == p[|p| - 1] ==> cls[G.eno[p[0]][2]] != DUNNO)
  }

  ghost predicate HasEnds(p: seq<int>, a: int, b: int) {
    |p| > 0 && ((p[0] == a && p[|p| - 1] == b) || (p[0] == b && p[|p| - 1] == a))
  }

  ghost predicate SomePathJoins(P: map<int, seq<int>>, a: int, b: int) {
    exists id :: id in P && HasEnds(P[id], a, b)
  }

  ghost predicate Owns(owner: seq<int>, p: seq<int>, id: int) {
    forall k :: 0 <= k < |p| ==> 0 <= p[k] < |owner| && owner[p[k]] == id
  }

  /** One path of the partition; only the path with ends a and b may have a chord. */
  ghost predicate PartOk(G: Cub, s: State, P: map<int, seq<int>>, owner: seq<int>, id: int, a: int, b: int)
    requires Wf(G) && Shaped(G, s)
  {
    id in P ==> PathOk(G, s, P[id]) && Owns(owner, P[id], id) &&
                (Chordless(G, s.cls, P[id]) || HasEnds(P[id], a, b))
  }

  /** The paths of P partition the vertices, and there are nv - nin of them; when
      a is a vertex, some path leads from a to b. */
  ghost predicate Partition(G: Cub, s: State, nin: int, P: map<int, seq<int>>, owner: seq<int>, a: int, b: int)
    requires Wf(G) && Shaped(G, s)
  {
    && |owner| == G.nv && |P| == G.nv - nin
    && (forall v :: 0 <= v < G.nv ==> owner[v] in P && v in P[owner[v]])
    && (forall id :: PartOk(G, s, P, owner, id, a, b))
    && (a >= 0 ==> SomePathJoins(P, a, b))
  }

  /** The chosen edges form disjoint paths; only the pair (a, b) may be joinable. */
  ghost predicate Open(G: Cub, s: State, nin: int, a: int, b: int)
    requires Wf(G) && Shaped(G, s)
  {
    exists P, owner :: Partition(G, s, nin, P, owner, a, b)
  }

  ghost predicate RingAt(G: Cub, cls: seq<int>, c: seq<int>, i: int)
    requires Wf(G) && |cls| == G.ne + 1
  {
    0 <= i < |c| ==> YesLink(G, cls, c[i], c[Next(i, |c|)])
  }

  /** c is a Hamiltonian cycle of YES edges. */
  ghost predicate Ring(G: Cub, cls: seq<int>, c: seq<int>)
    requires Wf(G) && |cls| == G.ne + 1
  {
    IsHamCycle(G, c) && forall i :: 0 <= i < |c| ==> RingAt(G, cls, c, i)
  }

  /** The chosen edges form one Hamiltonian cycle. */
  ghost predicate Closed(G: Cub, s: State, nin: int)
    requires Wf(G) && Shaped(G, s)
  {
    && nin == G.nv
    && (forall v :: 0 <= v < G.nv ==> s.din[v] == 2)
    && exists c :: Ring(G, s.cls, c)
  }

  /** Some vertex lies on three chosen edges. */
  ghost predicate Overfull(s: State) {
    exists v :: 0 <= v < |s.din| && s.din[v] > 2
  }

  // --- Reversing and joining paths ------------------------------------------

  function Rev(p: seq<int>): (r: seq<int>)
    ensures |r| == |p| && forall k :: 0 <= k < |p| ==> r[k] == p[|p| - 1 - k]
  {
    seq(|p|, k requires 0 <= k < |p| => p[|p| - 1 - k])
  }

  lemma RevPath(G: Cub, s: State, p: seq<int>)
    requires Wf(G) && Shaped(G, s) && PathOk(G, s, p)
    ensures PathOk(G, s, Rev(p))
  {
    var r := Rev(p);
    forall k | 0 <= k < |r| - 1 ensures LinkAt(G, s.cls, r, k) {
      assert LinkAt(G, s.cls, p, |p| - 2 - k);
      YesLinkSym(G, s.cls, p[|p| - 2 - k], p[|p| - 1 - k]);
    }
  }

  lemma PathFrame(G: Cub, s: State, s': State, p: seq<int>)
    requires Wf(G) && Shaped(G, s) && Shaped(G, s') && PathOk(G, s, p)
    requires forall e :: 0 <= e <= G.ne && s.cls[e] == YES ==> s'.cls[e] == YES
    requires forall k :: 0 <= k < |p| ==> s'.din[p[k]] == s.din[p[k]]
    requires s'.farend[p[0]] == s.farend[p[0]] && s'.farend[p[|p| - 1]] == s.farend[p[|p| - 1]]
    ensures PathOk(G, s', p)
  {
    forall k | 0 <= k < |p| - 1 ensures LinkAt(G, s'.cls, p, k) {
      assert LinkAt(G, s.cls, p, k);
      YesLinkMono(G, s.cls, s'.cls, p[k], p[k + 1]);
    }
  }

  lemma YesLinkMono(G: Cub, cls: seq<int>, cls': seq<int>, a: int, b: int)
    requires Wf(G) && |cls| == |cls'| == G.ne + 1
    requires forall e :: 0 <= e <= G.ne && cls[e] == YES ==> cls'[e] == YES
    requires YesLink(G, cls, a, b)
    ensures YesLink(G, cls', a, b)
  {
    Row(G, a);
  }

  lemma MarkInLink(G: Cub, cls: seq<int>, v: int, w: int, en: int)
    requires Wf(G) && |cls| == G.ne + 1 && Ends(G, en, v, w)
    ensures YesLink(G, cls[en := YES], v, w)
  {
    assert NumberedEdge(G, en);
    Row(G, v);
    var i := SlotOf(G.eno[v], en);
    assert NumberedSlot(G, v, i);
    assert YesSlot(G, cls[en := YES], v, w, i);
  }

  /** Joining a path that ends in v to one that starts in w along edge vw. */
  lemma JoinPath(G: Cub, s: State, p: seq<int>, q: seq<int>, v: int, w: int, en: int)
    requires Wf(G) && Shaped(G, s) && PathOk(G, s, p) && PathOk(G, s, q)
    requires p[|p| - 1] == v && q[0] == w && Ends(G, en, v, w)
    requires forall i, j :: 0 <= i < |p| && 0 <= j < |q| ==> p[i] != q[j]
    ensures PathOk(G, Link(MarkIn(s, v, w, en), p[0], q[|q| - 1]), p + q)
  {
    hide Wf, YesLink;
    var s' := Link(MarkIn(s, v, w, en), p[0], q[|q| - 1]);
    var r := p + q;
    forall k | 0 <= k < |r| - 1 ensures LinkAt(G, s'.cls, r, k) {
      if k < |p| - 1 {
        assert LinkAt(G, s.cls, p, k);
        YesLinkMono(G, s.cls, s'.cls, p[k], p[k + 1]);
      } else if k == |p| - 1 {
        MarkInLink(G, s.cls, v, w, en);
      } else {
        assert LinkAt(G, s.cls, q, k - |p|);
        YesLinkMono(G, s.cls, s'.cls, q[k - |p|], q[k - |p| + 1]);
      }
    }
  }

  /** A vertex on fewer than two chosen edges is an end of its path. */
  lemma EndOfPath(G: Cub, s: State, p: seq<int>, v: int)
    requires Wf(G) && Shaped(G, s) && PathOk(G, s, p) && v in p && s.din[v] < 2
    ensures p[0] == v || p[|p| - 1] == v
    ensures s.farend[v] == if p[0] == v then p[|p| - 1] else p[0]
  {
  }

  ghost function JoinedOwner(owner: seq<int>, a: int, b: int): (r: seq<int>)
    ensures |r| == |owner|
    ensures forall v :: 0 <= v < |owner| ==> r[v] == if owner[v] == b then a else owner[v]
  {
    seq(|owner|, v requires 0 <= v < |owner| => if owner[v] == b then a else owner[v])
  }

  lemma RevMembers(p: seq<int>)
    ensures forall x :: x in Rev(p) <==> x in p
  {
    forall x | x in p ensures x in Rev(p) {
      var k :| 0 <= k < |p| && p[k] == x;
      assert Rev(p)[|p| - 1 - k] == x;
    }
  }

  /** A path can be listed so that a given end comes last. */
  lemma EndingIn(G: Cub, s: State, p: seq<int>, v: int) returns (r: seq<int>)
    requires Wf(G) && Shaped(G, s) && PathOk(G, s, p) && v in p && s.din[v] < 2
    ensures PathOk(G, s, r) && r[|r| - 1] == v && r[0] == s.farend[v]
    ensures forall x :: x in r <==> x in p
  {
    EndOfPath(G, s, p, v);
    RevPath(G, s, p);
    RevMembers(p);
    r := if p[|p| - 1] == v then p else Rev(p);
  }

  /** The path that joining p and q along vw gives, whichever way p and q are
      listed. */
  lemma JoinedPath(G: Cub, s: State, p: seq<int>, q: seq<int>, v: int, w: int, en: int) returns (r: seq<int>)
    requires Wf(G) && Shaped(G, s) && PathOk(G, s, p) && PathOk(G, s, q)
    requires v in p && w in q && s.din[v] < 2 && s.din[w] < 2 && Ends(G, en, v, w)
    requires forall x :: x in p ==> x !in q
    ensures Shaped(G, Link(MarkIn(s, v, w, en), s.farend[v], s.farend[w]))
    ensures PathOk(G, Link(MarkIn(s, v, w, en), s.farend[v], s.farend[w]), r)
    ensures r[0] == s.farend[v] && r[|r| - 1] == s.farend[w]
    ensures s.farend[v] in p && s.farend[w] in q
    ensures forall x :: x in r <==> x in p || x in q
  {
    var p' := EndingIn(G, s, p, v);
    var q' := EndingIn(G, s, q, w);
    RevPath(G, s, q');
    RevMembers(q');
    q' := Rev(q');
    forall i, j | 0 <= i < |p'| && 0 <= j < |q'| ensures p'[i] != q'[j] {
      assert p'[i] in p && q'[j] in q;
    }
    JoinPath(G, s, p', q', v, w, en);
    r := p' + q';
  }

  /** Paths that contain neither end of the new edge are not affected by it. */
  lemma OtherPart(G: Cub, s: State, s': State, p: seq<int>, v: int, w: int, en: int)
    requires Wf(G) && Shaped(G, s) && PathOk(G, s, p) && Chordless(G, s.cls, p)
    requires 0 <= v < G.nv && 0 <= w < G.nv && 0 <= en < G.ne && s.cls[en] == DUNNO
    requires s' == Link(MarkIn(s, v, w, en), s.farend[v], s.farend[w])
    requires v !in p && w !in p && s.farend[v] !in p && s.farend[w] !in p
    ensures Shaped(G, s') && PathOk(G, s', p) && Chordless(G, s'.cls, p)
  {
    assert forall k :: 0 <= k < |p| ==> p[k] in p;
    PathFrame(G, s, s', p);
    Row(G, p[0]);
  }

  ghost predicate Joinable(G: Cub, s: State, nin: int, P: map<int, seq<int>>, owner: seq<int>, v: int, w: int,
      en: int) {
    && Consistent(G, s) && Partition(G, s, nin, P, owner, -1, -1)
    && Ends(G, en, v, w) && s.cls[en] == DUNNO
    && 0 <= v < G.nv && 0 <= w < G.nv && owner[v] != owner[w]
    && s.din[v] < 2 && s.din[w] < 2
  }

  lemma PartMember(G: Cub, s: State, nin: int, P: map<int, seq<int>>, owner: seq<int>, a: int, b: int, id: int, x: int)
    requires Wf(G) && Shaped(G, s) && Partition(G, s, nin, P, owner, a, b) && id in P
    ensures PathOk(G, s, P[id])
    ensures x in P[id] <==> 0 <= x < G.nv && owner[x] == id
  {
    assert PartOk(G, s, P, owner, id, a, b);
  }

  ghost predicate PathKept(G: Cub, s: State, p: seq<int>)
    requires Wf(G) && Shaped(G, s)
  {
    PathOk(G, s, p) && Chordless(G, s.cls, p)
  }

  lemma MergedPart(G: Cub, s: State, s': State, P: map<int, seq<int>>, owner: seq<int>, a: int, b: int, r: seq<int>,
      e1: int, e2: int, id: int)
    requires Wf(G) && Shaped(G, s) && Shaped(G, s') && a != b && |owner| == G.nv
    requires PathOk(G, s', r) && HasEnds(r, e1, e2)
    requires forall x :: x in r ==> 0 <= x < G.nv && (owner[x] == a || owner[x] == b)
    requires PartOk(G, s, P, owner, id, -1, -1)
    requires id in P && id != a && id != b ==> PathKept(G, s', P[id])
    ensures PartOk(G, s', (P - {b})[a := r], JoinedOwner(owner, a, b), id, e1, e2)
  {
    hide Wf, LinkAt, Chordless;
    if id == a {
      assert forall k :: 0 <= k < |r| ==> r[k] in r;
    } else if id in P && id != b {
      OwnersKept(G, s, P, owner, a, b, id);
    }
  }

  /** Replacing two parts by one that covers both gives a partition again. */
  lemma MergeParts(G: Cub, s: State, s': State, nin: int, P: map<int, seq<int>>, owner: seq<int>, a: int, b: int,
      r: seq<int>, e1: int, e2: int)
    requires Wf(G) && Shaped(G, s) && Shaped(G, s') && Partition(G, s, nin, P, owner, -1, -1)
    requires a in P && b in P && a != b
    requires PathOk(G, s', r) && HasEnds(r, e1, e2)
    requires forall x :: x in r <==> 0 <= x < G.nv && (owner[x] == a || owner[x] == b)
    requires forall id :: id in P && id != a && id != b ==> PathKept(G, s', P[id])
    ensures Open(G, s', nin + 1, e1, e2)
  {
    hide Wf, Shaped, PathOk, PartOk, PathKept;
    var P' := (P - {b})[a := r];
    var owner' := JoinedOwner(owner, a, b);
    assert P'.Keys == P.Keys - {b};
    forall id ensures PartOk(G, s', P', owner', id, e1, e2) {
      assert PartOk(G, s, P, owner, id, -1, -1);
      MergedPart(G, s, s', P, owner, a, b, r, e1, e2, id);
    }
    assert forall x :: 0 <= x < G.nv ==> owner'[x] in P' && x in P'[owner'[x]];
    assert P'[a] == r;
    assert Partition(G, s', nin + 1, P', owner', e1, e2);
  }

  lemma OwnersKept(G: Cub, s: State, P: map<int, seq<int>>, owner: seq<int>, a: int, b: int, id: int)
    requires Wf(G) && Shaped(G, s) && PartOk(G, s, P, owner, id, -1, -1) && id in P && id != b
    ensures Owns(JoinedOwner(owner, a, b), P[id], id)
  {
  }

  /** Classifying vw as chosen joins the two paths ending in v and w. */
  lemma JoinParts(G: Cub, s: State, nin: int, P: map<int, seq<int>>, owner: seq<int>, v: int, w: int, en: int)
    requires Joinable(G, s, nin, P, owner, v, w, en)
    ensures Shaped(G, Link(MarkIn(s, v, w, en), s.farend[v], s.farend[w]))
    ensures Open(G, Link(MarkIn(s, v, w, en), s.farend[v], s.farend[w]), nin + 1, s.farend[v], s.farend[w])
  {
    var s' := Link(MarkIn(s, v, w, en), s.farend[v], s.farend[w]);
    var a, b := owner[v], owner[w];
    PartMember(G, s, nin, P, owner, -1, -1, a, v);
    PartMember(G, s, nin, P, owner, -1, -1, b, w);
    forall x ensures x in P[a] <==> 0 <= x < G.nv && owner[x] == a { PartMember(G, s, nin, P, owner, -1, -1, a, x); }
    forall x ensures x in P[b] <==> 0 <= x < G.nv && owner[x] == b { PartMember(G, s, nin, P, owner, -1, -1, b, x); }
    var r := JoinedPath(G, s, P[a], P[b], v, w, en);
    forall id | id in P && id != a && id != b ensures PathKept(G, s', P[id]) {
      OtherPartKept(G, s, nin, P, owner, v, w, en, id);
    }
    MergeParts(G, s, s', nin, P, owner, a, b, r, s.farend[v], s.farend[w]);
  }

  lemma OtherPartKept(G: Cub, s: State, nin: int, P: map<int, seq<int>>, owner: seq<int>, v: int, w: int, en: int,
      id: int)
    requires Joinable(G, s, nin, P, owner, v, w, en) && id in P && id != owner[v] && id != owner[w]
    requires 0 <= s.farend[v] < G.nv && owner[s.farend[v]] == owner[v]
    requires 0 <= s.farend[w] < G.nv && owner[s.farend[w]] == owner[w]
    ensures Shaped(G, Link(MarkIn(s, v, w, en), s.farend[v], s.farend[w]))
    ensures PathKept(G, Link(MarkIn(s, v, w, en), s.farend[v], s.farend[w]), P[id])
  {
    assert PartOk(G, s, P, owner, id, -1, -1);
    PartMember(G, s, nin, P, owner, -1, -1, id, v);
    PartMember(G, s, nin, P, owner, -1, -1, id, w);
    PartMember(G, s, nin, P, owner, -1, -1, id, s.farend[v]);
    PartMember(G, s, nin, P, owner, -1, -1, id, s.farend[w]);
    OtherPart(G, s, Link(MarkIn(s, v, w, en), s.farend[v], s.farend[w]), P[id], v, w, en);
  }

  /** Two vertices of the same path, each on fewer than two chosen edges, are its
      two ends; so an unclassified edge between them is a chord. */
  lemma ChordEnds(G: Cub, s: State, p: seq<int>, v: int, w: int, en: int)
    requires Wf(G) && Shaped(G, s) && PathOk(G, s, p) && v in p && w in p && v != w
    requires s.din[v] < 2 && s.din[w] < 2 && Ends(G, en, v, w) && s.cls[en] == DUNNO
    ensures HasEnds(p, v, w) && !Chordless(G, s.cls, p)
  {
    EndOfPath(G, s, p, v);
    EndOfPath(G, s, p, w);
    assert NumberedEdge(G, en);
    var x := p[0];
    Row(G, x);
    var i := SlotOf(G.eno[x], en);
    assert NumberedSlot(G, x, i);
  }

  lemma AtLeastThree(G: Cub, s: State)
    requires Consistent(G, s) && G.nv > 0
    ensures G.nv >= 3
  {
    assert Counted(G, s, 0);
    Row(G, 0);
  }

  lemma CoverSize(p: seq<int>, n: nat)
    requires Distinct(p) && forall k :: 0 <= k < |p| ==> 0 <= p[k] < n
    requires forall x :: 0 <= x < n ==> x in p
    ensures |p| == n
  {
    ImageSize(p);
    forall x | x in Below(n) ensures x in Image(p) {
      assert x in p;
    }
    assert Image(p) == Below(n);
  }

  /** With one path left, that path visits every vertex. */
  lemma SinglePath(G: Cub, s: State, P: map<int, seq<int>>, owner: seq<int>, a: int, b: int, id: int)
    requires Wf(G) && Shaped(G, s) && Partition(G, s, G.nv - 1, P, owner, a, b) && id in P
    ensures |P[id]| == G.nv && PathOk(G, s, P[id])
    ensures forall x :: 0 <= x < G.nv ==> x in P[id]
  {
    PartMember(G, s, G.nv - 1, P, owner, a, b, id, 0);
    assert |P.Keys - {id}| == 0;
    forall x | 0 <= x < G.nv ensures x in P[id] {
      assert owner[x] in P.Keys;
    }
    CoverSize(P[id], G.nv);
  }

  /** Joining the ends of a path through all vertices gives a ring. */
  lemma CloseRing(G: Cub, s: State, p: seq<int>, v: int, w: int, en: int)
    requires Consistent(G, s) && PathOk(G, s, p) && |p| == G.nv >= 3
    requires HasEnds(p, v, w) && Ends(G, en, v, w) && s.cls[en] == DUNNO
    ensures Ring(G, MarkIn(s, v, w, en).cls, p)
    ensures forall k :: 0 <= k < |p| ==> MarkIn(s, v, w, en).din[p[k]] == 2
  {
    var cls := MarkIn(s, v, w, en).cls;
    MarkInLink(G, s.cls, v, w, en);
    YesLinkSym(G, cls, v, w);
    forall i | 0 <= i < |p| ensures RingAt(G, cls, p, i) && StepOk(G, p, i) {
      if i < |p| - 1 {
        assert LinkAt(G, s.cls, p, i);
        YesLinkMono(G, s.cls, cls, p[i], p[i + 1]);
      }
      assert YesLink(G, cls, p[i], p[Next(i, |p|)]);
      Row(G, p[i]);
    }
  }

  /** The three shapes the chosen edges can have. */
  ghost predicate Mode(G: Cub, s: State, nin: int, a: int, b: int) {
    Wf(G) && Shaped(G, s) && (Overfull(s) || Closed(G, s, nin) || Open(G, s, nin, a, b))
  }

  lemma ClosingMode(G: Cub, s: State, P: map<int, seq<int>>, owner: seq<int>, v: int, w: int, en: int)
    requires Consistent(G, s) && Partition(G, s, G.nv - 1, P, owner, v, w)
    requires Ends(G, en, v, w) && s.cls[en] == DUNNO && 0 <= v < G.nv && 0 <= w < G.nv && v != w
    requires s.din[v] < 2 && s.din[w] < 2
    ensures Shaped(G, MarkIn(s, v, w, en)) && Closed(G, MarkIn(s, v, w, en), G.nv)
  {
    var p := P[owner[v]];
    SinglePath(G, s, P, owner, v, w, owner[v]);
    ChordEnds(G, s, p, v, w, en);
    AtLeastThree(G, s);
    CloseRing(G, s, p, v, w, en);
    forall x | 0 <= x < G.nv ensures MarkIn(s, v, w, en).din[x] == 2 {
      assert x in p;
    }
  }

  /** What choosing edge vw does to the path structure. The last pair of ends may
      be joined only when the path already visits every vertex. */
  lemma InMode(G: Cub, s: State, nin: int, a: int, b: int, v: int, w: int, en: int)
    requires Consistent(G, s) && Ends(G, en, v, w) && s.cls[en] == DUNNO
    requires 0 <= v < G.nv && 0 <= w < G.nv && v != w
    requires Mode(G, s, nin, a, b) && ((a == -1 && b == -1) || (a == v && b == w && nin == G.nv - 1))
    ensures Shaped(G, MarkIn(s, v, w, en)) && Shaped(G, Link(MarkIn(s, v, w, en), s.farend[v], s.farend[w]))
    ensures nin + 1 == G.nv ==> Mode(G, MarkIn(s, v, w, en), G.nv, -1, -1)
    ensures nin + 1 != G.nv ==>
              Mode(G, Link(MarkIn(s, v, w, en), s.farend[v], s.farend[w]), nin + 1, s.farend[v], s.farend[w])
  {
    var s1 := MarkIn(s, v, w, en);
    var s2 := Link(s1, s.farend[v], s.farend[w]);
    assert s2.din == s1.din;
    if s.din[v] >= 2 {
      assert s1.din[v] > 2 && s2.din[v] > 2;
    } else if s.din[w] >= 2 {
      assert s1.din[w] > 2 && s2.din[w] > 2;
    } else if Overfull(s) {
      var x :| 0 <= x < |s.din| && s.din[x] > 2;
      assert s1.din[x] > 2 && s2.din[x] > 2;
    } else {
      var P, owner :| Partition(G, s, nin, P, owner, a, b);
      if owner[v] == owner[w] {
        assert PartOk(G, s, P, owner, owner[v], a, b);
        ChordEnds(G, s, P[owner[v]], v, w, en);
        ClosingMode(G, s, P, owner, v, w, en);
      } else {
        assert |P.Keys - {owner[v]} - {owner[w]}| >= 0;
        JoinParts(G, s, nin, P, owner, v, w, en);
      }
    }
  }

  /** Choosing and rejecting keep what the other classes say about paths. */
  lemma OutMode(G: Cub, s: State, nin: int, a: int, b: int, v: int, w: int, en: int)
    requires Consistent(G, s) && Ends(G, en, v, w) && s.cls[en] == DUNNO
    requires 0 <= v < G.nv && 0 <= w < G.nv && v != w
    requires Mode(G, s, nin, a, b)
    ensures Shaped(G, MarkOut(s, v, w, en)) && Mode(G, MarkOut(s, v, w, en), nin, a, b)
    ensures a == v && b == w ==> Mode(G, MarkOut(s, v, w, en), nin, -1, -1)
  {
    var s1 := MarkOut(s, v, w, en);
    if Overfull(s) {
      var x :| 0 <= x < |s.din| && s.din[x] > 2;
      assert s1.din[x] > 2;
    } else if Closed(G, s, nin) {
      var c :| Ring(G, s.cls, c);
      RingMono(G, s.cls, s1.cls, c);
    } else {
      var P, owner :| Partition(G, s, nin, P, owner, a, b);
      forall id
        ensures PartOk(G, s1, P, owner, id, a, b)
        ensures a == v && b == w ==> PartOk(G, s1, P, owner, id, -1, -1)
      {
        OutPart(G, s, P, owner, id, a, b, v, w, en);
      }
      assert Partition(G, s1, nin, P, owner, a, b);
      if a == v && b == w {
        assert Partition(G, s1, nin, P, owner, -1, -1);
      }
    }
  }

  lemma RingMono(G: Cub, cls: seq<int>, cls': seq<int>, c: seq<int>)
    requires Wf(G) && |cls| == |cls'| == G.ne + 1 && Ring(G, cls, c)
    requires forall e :: 0 <= e <= G.ne && cls[e] == YES ==> cls'[e] == YES
    ensures Ring(G, cls', c)
  {
    forall i | 0 <= i < |c| ensures RingAt(G, cls', c, i) {
      assert RingAt(G, cls, c, i);
      YesLinkMono(G, cls, cls', c[i], c[Next(i, |c|)]);
    }
  }

  lemma OutPart(G: Cub, s: State, P: map<int, seq<int>>, owner: seq<int>, id: int, a: int, b: int, v: int, w: int,
      en: int)
    requires Wf(G) && Shaped(G, s) && Ends(G, en, v, w) && s.cls[en] == DUNNO
    requires 0 <= v < G.nv && 0 <= w < G.nv && v != w && PartOk(G, s, P, owner, id, a, b)
    ensures Shaped(G, MarkOut(s, v, w, en)) && PartOk(G, MarkOut(s, v, w, en), P, owner, id, a, b)
    ensures a == v && b == w ==> PartOk(G, MarkOut(s, v, w, en), P, owner, id, -1, -1)
  {
    if id in P {
      var p, s1 := P[id], MarkOut(s, v, w, en);
      PathFrame(G, s, s1, p);
      var x := p[0];
      Row(G, x);
      assert NumberedSlot(G, x, 0) && NumberedSlot(G, x, 1) && NumberedSlot(G, x, 2);
      if a == v && b == w && HasEnds(p, v, w) {
        forall i | 0 <= i < 3 && G.g[x][i] == p[|p| - 1] ensures s1.cls[G.eno[x][i]] != DUNNO {
          EdgeUnique(G, x, i, en);
        }
      }
    }
  }

  // --- What Hamiltonian edge sets must contain ------------------------------

  /** An interior vertex of a path is left by H only along the path. */
  lemma InteriorStays(G: Cub, s: State, p: seq<int>, k: int, H: set<int>)
    requires Consistent(G, s) && PathOk(G, s, p) && 0 < k < |p| - 1
    requires HamSet(G, H) && Compat(G, s.cls, H)
    ensures forall i :: 0 <= i < 3 && G.eno[p[k]][i] in H ==> G.g[p[k]][i] == p[k - 1] || G.g[p[k]][i] == p[k + 1]
  {
    var v := p[k];
    LocalDegree(G, s, H, v);
    assert LinkAt(G, s.cls, p, k - 1) && LinkAt(G, s.cls, p, k);
    YesLinkSym(G, s.cls, p[k - 1], p[k]);
    Row(G, v);
    assert Counted(G, s, v);
  }

  /** An end of a path is left by H only along the path and one other edge. */
  lemma EndStays(G: Cub, s: State, v: int, u: int, i: int, H: set<int>)
    requires Consistent(G, s) && YesLink(G, s.cls, v, u) && 0 <= v < G.nv && 0 <= i < 3
    requires HamSet(G, H) && Compat(G, s.cls, H)
    requires G.eno[v][i] in H && G.g[v][i] != u
    ensures forall j :: 0 <= j < 3 && G.eno[v][j] in H ==> G.g[v][j] == u || j == i
  {
    LocalDegree(G, s, H, v);
    Row(G, v);
    assert Degree(G, H, v) == 2;
    SlotsDiffer3(G, v, i, H);
  }

  lemma SlotsDiffer3(G: Cub, v: int, i: int, H: set<int>)
    requires Wf(G) && HamSet(G, H) && 0 <= v < G.nv && 0 <= i < 3 && G.eno[v][i] in H
    ensures G.g[v][i] >= 0 && G.eno[v][i] < G.ne
  {
    Row(G, v);
    assert NumberedSlot(G, v, i);
  }

  ghost predicate Chord(G: Cub, s: State, p: seq<int>, i: int) {
    && Consistent(G, s) && PathOk(G, s, p) && |p| > 1 && 0 <= i < 3
    && G.g[p[0]][i] == p[|p| - 1] && 0 <= G.eno[p[0]][i] < G.ne && s.cls[G.eno[p[0]][i]] == DUNNO
  }

  lemma ChordFirst(G: Cub, s: State, p: seq<int>, i: int, H: set<int>)
    requires Chord(G, s, p, i) && HamSet(G, H) && Compat(G, s.cls, H) && G.eno[p[0]][i] in H
    ensures Stays(G, H, Image(p), p[0])
  {
    assert LinkAt(G, s.cls, p, 0);
    Row(G, p[0]);
    EndStays(G, s, p[0], p[1], i, H);
  }

  lemma ChordLast(G: Cub, s: State, p: seq<int>, i: int, H: set<int>)
    requires Chord(G, s, p, i) && HamSet(G, H) && Compat(G, s.cls, H) && G.eno[p[0]][i] in H
    ensures Stays(G, H, Image(p), p[|p| - 1])
  {
    var n := |p|;
    var w, j := OtherSide(G, p[0], i);
    assert LinkAt(G, s.cls, p, n - 2);
    YesLinkSym(G, s.cls, p[n - 2], p[n - 1]);
    Row(G, w);
    EndStays(G, s, w, p[n - 2], j, H);
  }

  lemma ChordInside(G: Cub, s: State, p: seq<int>, k: int, H: set<int>)
    requires Consistent(G, s) && PathOk(G, s, p) && 0 < k < |p| - 1 && HamSet(G, H) && Compat(G, s.cls, H)
    ensures Stays(G, H, Image(p), p[k])
  {
    Row(G, p[k]);
    InteriorStays(G, s, p, k, H);
  }

  /** A Hamiltonian edge set contains no cycle that misses a vertex, so it does not
      join the ends of a path that misses one. */
  lemma ChordNotUsed(G: Cub, s: State, p: seq<int>, i: int, y: int, H: set<int>)
    requires Chord(G, s, p, i) && HamSet(G, H) && Compat(G, s.cls, H)
    requires 0 <= y < G.nv && y !in p
    ensures G.eno[p[0]][i] !in H
  {
    var S := Image(p);
    assert Connects(G, H, p[0], y);
    if G.eno[p[0]][i] in H {
      forall v {:trigger Stays(G, H, S, v)} | v in S ensures Stays(G, H, S, v) {
        var k :| 0 <= k < |p| && p[k] == v;
        if k == 0 {
          ChordFirst(G, s, p, i, H);
        } else if k == |p| - 1 {
          ChordLast(G, s, p, i, H);
        } else {
          ChordInside(G, s, p, k, H);
        }
      }
    }
  }

  /** A Hamiltonian edge set that contains a path through all vertices also joins
      its ends. */
  lemma ClosingForced(G: Cub, s: State, p: seq<int>, i: int, H: set<int>)
    requires Chord(G, s, p, i) && HamSet(G, H) && Compat(G, s.cls, H)
    requires forall x :: 0 <= x < G.nv ==> x in p
    ensures G.eno[p[0]][i] in H
  {
    var v := p[0];
    Row(G, v);
    LocalDegree(G, s, H, v);
    assert Counted(G, s, v) && Degree(G, H, v) == 2;
    assert NumberedSlot(G, v, 0) && NumberedSlot(G, v, 1) && NumberedSlot(G, v, 2);
    var j :| 0 <= j < 3 && G.eno[v][j] in H && s.cls[G.eno[v][j]] != YES;
    assert G.g[v][j] >= 0;
    var x, l := OtherSide(G, v, j);
    LocalDegree(G, s, H, x);
    assert x in p;
    var k :| 0 <= k < |p| && p[k] == x;
    assert s.din[x] != 2;
  }

  /** What a Hamiltonian edge set does with an unclassified edge between the two
      ends of the path just formed. */
  lemma LinkedChord(G: Cub, s: State, nin: int, a: int, b: int, i: int, H: set<int>)
    requires Consistent(G, s) && Mode(G, s, nin, a, b) && nin != G.nv
    requires 0 <= a < G.nv && 0 <= b < G.nv && 0 <= i < 3 && G.g[a][i] == b
    requires 0 <= G.eno[a][i] < G.ne && s.cls[G.eno[a][i]] == DUNNO
    requires HamSet(G, H) && Compat(G, s.cls, H)
    ensures if nin == G.nv - 1 then G.eno[a][i] in H else G.eno[a][i] !in H
  {
    if Overfull(s) {
      var x :| 0 <= x < |s.din| && s.din[x] > 2;
      LocalDegree(G, s, H, x);
      assert false;
    } else {
      var P, owner :| Partition(G, s, nin, P, owner, a, b);
      var id :| id in P && HasEnds(P[id], a, b);
      PartMember(G, s, nin, P, owner, a, b, id, a);
      Row(G, a);
      var p := EndFirst(G, s, P[id], a, b);
      if nin == G.nv - 1 {
        SinglePath(G, s, P, owner, a, b, id);
        ClosingForced(G, s, p, i, H);
      } else {
        OtherVertex(G, s, nin, P, owner, a, b, id);
        var y :| 0 <= y < G.nv && y !in P[id];
        ChordNotUsed(G, s, p, i, y, H);
      }
    }
  }

  lemma EndFirst(G: Cub, s: State, p: seq<int>, a: int, b: int) returns (r: seq<int>)
    requires Wf(G) && Shaped(G, s) && PathOk(G, s, p) && HasEnds(p, a, b)
    ensures PathOk(G, s, r) && r[0] == a && r[|r| - 1] == b
    ensures forall x :: x in r <==> x in p
  {
    RevPath(G, s, p);
    RevMembers(p);
    r := if p[0] == a then p else Rev(p);
  }

  lemma Another<T>(s: set<T>, x: T) returns (y: T)
    requires |s| > 1
    ensures y in s && y != x
  {
    var t := s - {x};
    assert |t| > 0;
    y :| y in t;
  }

  lemma OtherVertex(G: Cub, s: State, nin: int, P: map<int, seq<int>>, owner: seq<int>, a: int, b: int, id: int)
    requires Wf(G) && Shaped(G, s) && Partition(G, s, nin, P, owner, a, b) && id in P && nin < G.nv - 1
    ensures exists y :: 0 <= y < G.nv && y !in P[id]
  {
    var id' := Another(P.Keys, id);
    PartMember(G, s, nin, P, owner, a, b, id', 0);
    var y := P[id'][0];
    PartMember(G, s, nin, P, owner, a, b, id', y);
    PartMember(G, s, nin, P, owner, a, b, id, y);
  }

  /** Once the new path has no unclassified edge between its ends, no path has. */
  lemma NoChord(G: Cub, s: State, nin: int, a: int, b: int)
    requires Consistent(G, s) && Mode(G, s, nin, a, b) && 0 <= a < G.nv
    requires forall i :: 0 <= i < 3 && G.g[a][i] == b ==> 0 <= G.eno[a][i] <= G.ne && s.cls[G.eno[a][i]] != DUNNO
    ensures Mode(G, s, nin, -1, -1)
  {
    if !Overfull(s) && !Closed(G, s, nin) {
      var P, owner :| Partition(G, s, nin, P, owner, a, b);
      forall id ensures PartOk(G, s, P, owner, id, -1, -1) {
        assert PartOk(G, s, P, owner, id, a, b);
        if id in P && HasEnds(P[id], a, b) {
          NoChordPath(G, s, P[id], a, b);
        }
      }
      assert Partition(G, s, nin, P, owner, -1, -1);
    }
  }

  lemma NoChordPath(G: Cub, s: State, p: seq<int>, a: int, b: int)
    requires Consistent(G, s) && PathOk(G, s, p) && HasEnds(p, a, b) && 0 <= a < G.nv
    requires forall i :: 0 <= i < 3 && G.g[a][i] == b ==> 0 <= G.eno[a][i] <= G.ne && s.cls[G.eno[a][i]] != DUNNO
    ensures Chordless(G, s.cls, p)
  {
    var x, y := p[0], p[|p| - 1];
    Row(G, x);
    forall j | 0 <= j < 3 && G.g[x][j] == y ensures s.cls[G.eno[x][j]] != DUNNO {
      var w, i := OtherSide(G, x, j);
    }
  }
}
