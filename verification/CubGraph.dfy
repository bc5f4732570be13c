/** Graphs of maximum degree three stored row by row, their edge numbering, and
    the two descriptions of a Hamiltonian cycle used by the search: a cyclic
    sequence of vertices, and a set of edges that meets every vertex twice and
    is connected. */
module CubGraph {

  // The three values of an edge classification and the abort status.
  const YES := 1
  const DUNNO := 0
  const NO := -1
  const HABORT := 5

  /** Row v lists the neighbours of v, padded with -1; `eno` gives the number of
      each listed edge (`ne` for padding) and `v1`, `v2` the ends of an edge. */
  datatype Cub = Cub(nv: nat, ne: nat, g: seq<seq<int>>, eno: seq<seq<int>>, v1: seq<int>, v2: seq<int>)

  predicate Listed(row: seq<int>, w: int) {
    |row| == 3 && (row[0] == w || row[1] == w || row[2] == w)
  }

  /** The slot of a row holding w. */
  function SlotOf(row: seq<int>, w: int): (i: int)
    requires Listed(row, w)
    ensures 0 <= i < 3 && row[i] == w
  {
    if row[0] == w then 0 else if row[1] == w then 1 else 2
  }

  predicate HasRows(g: seq<seq<int>>) {
    forall v :: 0 <= v < |g| ==> |g[v]| == 3
  }

  /** Row v holds distinct vertices other than v, then padding, and every
      neighbour lists v back. */
  ghost predicate SimpleRow(g: seq<seq<int>>, v: int)
    requires HasRows(g) && 0 <= v < |g|
  {
    && -1 <= g[v][0] < |g| && -1 <= g[v][1] < |g| && -1 <= g[v][2] < |g|
    && g[v][0] != v && g[v][1] != v && g[v][2] != v
    && (g[v][0] < 0 ==> g[v][1] < 0) && (g[v][1] < 0 ==> g[v][2] < 0)
    && (g[v][0] >= 0 ==> g[v][0] != g[v][1] && g[v][0] != g[v][2] && Listed(g[g[v][0]], v))
    && (g[v][1] >= 0 ==> g[v][1] != g[v][2] && Listed(g[g[v][1]], v))
    && (g[v][2] >= 0 ==> Listed(g[g[v][2]], v))
  }

  /** A simple undirected graph of maximum degree three. */
  ghost predicate Simple(g: seq<seq<int>>) {
    HasRows(g) && forall v :: 0 <= v < |g| ==> SimpleRow(g, v)
  }

  ghost predicate Sized(G: Cub) {
    && |G.g| == |G.eno| == G.nv && |G.v1| == |G.v2| == G.ne
    && HasRows(G.g) && HasRows(G.eno)
  }

  /** The ends of edge e are v and w. */
  ghost predicate Ends(G: Cub, e: int, v: int, w: int)
    requires Sized(G)
  {
    0 <= e < G.ne && ((G.v1[e] == v && G.v2[e] == w) || (G.v1[e] == w && G.v2[e] == v))
  }

  ghost predicate NumberedSlot(G: Cub, v: int, i: int)
    requires Sized(G) && 0 <= v < G.nv && 0 <= i < 3
  {
    if G.g[v][i] < 0 then G.eno[v][i] == G.ne else Ends(G, G.eno[v][i], v, G.g[v][i])
  }

  ghost predicate NumberedRow(G: Cub, v: int)
    requires Sized(G) && 0 <= v < G.nv
  {
    NumberedSlot(G, v, 0) && NumberedSlot(G, v, 1) && NumberedSlot(G, v, 2)
  }

  ghost predicate NumberedEdge(G: Cub, e: int)
    requires Sized(G) && 0 <= e < G.ne
  {
    && 0 <= G.v1[e] < G.v2[e] < G.nv
    && Listed(G.eno[G.v1[e]], e) && Listed(G.eno[G.v2[e]], e)
  }

  /** Edge numbers agree with the rows in both directions. */
  ghost predicate Numbered(G: Cub) {
    && Sized(G)
    && (forall v :: 0 <= v < G.nv ==> NumberedRow(G, v))
    && (forall e :: 0 <= e < G.ne ==> NumberedEdge(G, e))
  }

  ghost predicate Wf(G: Cub) {
    Numbered(G) && Simple(G.g)
  }

  // --- Hamiltonian cycles as vertex sequences -------------------------------

  function Next(i: int, n: int): int { if i + 1 == n then 0 else i + 1 }

  function Prev(i: int, n: int): int { if i == 0 then n - 1 else i - 1 }

  ghost predicate StepOk(G: Cub, c: seq<int>, i: int)
    requires Sized(G) && 0 <= i < |c|
  {
    0 <= c[i] < G.nv && Listed(G.g[c[i]], c[Next(i, |c|)])
  }

  /** c visits every vertex once and closes up along edges of the graph. */
  ghost predicate IsHamCycle(G: Cub, c: seq<int>)
    requires Sized(G)
  {
    && |c| == G.nv >= 3
    && (forall i, j :: 0 <= i < j < |c| ==> c[i] != c[j])
    && (forall i :: 0 <= i < |c| ==> StepOk(G, c, i))
  }

  ghost predicate EdgeAt(G: Cub, c: seq<int>, e: int, i: int)
    requires Sized(G)
  {
    0 <= i < |c| && Ends(G, e, c[i], c[Next(i, |c|)])
  }

  /** c goes along edge e. */
  ghost predicate Uses(G: Cub, c: seq<int>, e: int)
    requires Sized(G)
  {
    exists i :: EdgeAt(G, c, e, i)
  }

  /** c uses every edge classified YES and none classified NO. */
  ghost predicate Agrees(G: Cub, cls: seq<int>, c: seq<int>)
    requires Sized(G) && |cls| >= G.ne
  {
    forall e :: 0 <= e < G.ne ==> (cls[e] == YES ==> Uses(G, c, e)) && (cls[e] == NO ==> !Uses(G, c, e))
  }

  // --- Hamiltonian cycles as edge sets -------------------------------------

  function Bit(b: bool): int { if b then 1 else 0 }

  ghost function Degree(G: Cub, H: set<int>, v: int): int
    requires Sized(G) && 0 <= v < G.nv
  {
    Bit(G.eno[v][0] in H) + Bit(G.eno[v][1] in H) + Bit(G.eno[v][2] in H)
  }

  /** No edge of H leads from v out of S. */
  ghost predicate Stays(G: Cub, H: set<int>, S: set<int>, v: int)
    requires Sized(G)
  {
    0 <= v < G.nv ==>
      && (G.eno[v][0] in H ==> G.g[v][0] in S)
      && (G.eno[v][1] in H ==> G.g[v][1] in S)
      && (G.eno[v][2] in H ==> G.g[v][2] in S)
  }

  ghost predicate ClosedUnder(G: Cub, H: set<int>, S: set<int>)
    requires Sized(G)
  {
    forall v {:trigger Stays(G, H, S, v)} :: v in S ==> Stays(G, H, S, v)
  }

  ghost predicate Connects(G: Cub, H: set<int>, x: int, y: int)
    requires Sized(G)
  {
    forall S: set<int> :: x in S && ClosedUnder(G, H, S) ==> y in S
  }

  ghost predicate HamSet(G: Cub, H: set<int>)
    requires Sized(G)
  {
    && (forall e :: e in H ==> 0 <= e < G.ne)
    && (forall v :: 0 <= v < G.nv ==> Degree(G, H, v) == 2)
    && (forall x, y :: 0 <= x < G.nv && 0 <= y < G.nv ==> Connects(G, H, x, y))
  }

  ghost predicate Compat(G: Cub, cls: seq<int>, H: set<int>)
    requires |cls| >= G.ne
  {
    forall e :: 0 <= e < G.ne ==> (cls[e] == YES ==> e in H) && (cls[e] == NO ==> e !in H)
  }

  ghost function EdgesOf(G: Cub, c: seq<int>): set<int>
    requires Sized(G)
  {
    set e | 0 <= e < G.ne && Uses(G, c, e)
  }

  // --- Slots ----------------------------------------------------------------

  /** Makes what Wf says about row v available. */
  lemma Row(G: Cub, v: int)
    requires Wf(G) && 0 <= v < G.nv
    ensures SimpleRow(G.g, v) && NumberedRow(G, v)
  {
  }

  /** An edge at v sits in exactly one slot of v. */
  lemma SlotsDiffer(G: Cub, v: int, i: int, j: int)
    requires Wf(G) && 0 <= v < G.nv && 0 <= i < 3 && 0 <= j < 3 && i != j
    requires G.g[v][i] >= 0
    ensures G.eno[v][i] != G.eno[v][j]
  {
    Row(G, v);
    assert NumberedSlot(G, v, i) && NumberedSlot(G, v, j);
  }

  /** The slot in which the neighbour at slot i of v sees v. */
  lemma OtherSide(G: Cub, v: int, i: int) returns (w: int, j: int)
    requires Wf(G) && 0 <= v < G.nv && 0 <= i < 3 && G.g[v][i] >= 0
    ensures w == G.g[v][i] && 0 <= w < G.nv && w != v && 0 <= j < 3
    ensures G.eno[w][j] == G.eno[v][i] && G.g[w][j] == v
  {
    Row(G, v);
    w := G.g[v][i];
    var e := G.eno[v][i];
    assert NumberedSlot(G, v, i);
    assert NumberedEdge(G, e);
    j := SlotOf(G.eno[w], e);
    Row(G, w);
    assert NumberedSlot(G, w, j);
  }

  /** The edge between two vertices is unique. */
  lemma EdgeUnique(G: Cub, v: int, i: int, e: int)
    requires Wf(G) && 0 <= v < G.nv && 0 <= i < 3 && G.g[v][i] >= 0
    requires Ends(G, e, v, G.g[v][i])
    ensures G.eno[v][i] == e
  {
    assert NumberedEdge(G, e);
    Row(G, v);
    var j := SlotOf(G.eno[v], e);
    assert NumberedSlot(G, v, j);
  }

  // --- Finite sets of vertices ----------------------------------------------

  function Below(n: nat): (s: set<int>)
    ensures |s| == n && forall i :: i in s <==> 0 <= i < n
  {
    if n == 0 then {} else Below(n - 1) + {n - 1}
  }

  function Image(c: seq<int>): (s: set<int>)
    ensures forall i :: 0 <= i < |c| ==> c[i] in s
    ensures forall x :: x in s ==> x in c
  {
    if c == [] then {} else Image(c[..|c| - 1]) + {c[|c| - 1]}
  }

  lemma {:induction false} ImageSize(c: seq<int>)
    requires forall i, j :: 0 <= i < j < |c| ==> c[i] != c[j]
    ensures |Image(c)| == |c|
  {
    if c != [] {
      ImageSize(c[..|c| - 1]);
    }
  }

  lemma {:induction false} SubsetSize<T>(a: set<T>, b: set<T>)
    requires a <= b
    ensures |a| <= |b|
  {
    if a != {} {
      var x :| x in a;
      SubsetSize(a - {x}, b - {x});
    }
  }

  /** n distinct numbers below n are all the numbers below n. */
  lemma AllOccur(c: seq<int>, n: nat, y: int)
    requires |c| == n && 0 <= y < n
    requires forall i :: 0 <= i < n ==> 0 <= c[i] < n
    requires forall i, j :: 0 <= i < j < n ==> c[i] != c[j]
    ensures y in c
  {
    hide Below, Image;
    var img, all := Image(c), Below(n);
    if y !in c {
      ImageSize(c);
      assert img <= all - {y};
      SubsetSize(img, all - {y});
    }
  }

  // --- Cycles give edge sets ------------------------------------------------

  lemma CyclePrev(G: Cub, c: seq<int>, k: int)
    requires Wf(G) && IsHamCycle(G, c) && 0 <= k < |c|
    ensures 0 <= c[k] < G.nv && Listed(G.g[c[k]], c[Prev(k, |c|)])
  {
    var p := Prev(k, |c|);
    assert Next(p, |c|) == k;
    assert StepOk(G, c, p) && StepOk(G, c, k);
    Row(G, c[p]);
  }

  /** The cycle uses exactly the two slots of c[k] that lead along it. */
  lemma CycleSlot(G: Cub, c: seq<int>, k: int, i: int)
    requires Wf(G) && IsHamCycle(G, c) && 0 <= k < |c| && 0 <= i < 3
    requires 0 <= c[k] < G.nv
    ensures Uses(G, c, G.eno[c[k]][i]) <==>
            G.g[c[k]][i] == c[Next(k, |c|)] || G.g[c[k]][i] == c[Prev(k, |c|)]
  {
    var n, v, e := |c|, c[k], G.eno[c[k]][i];
    var p := Prev(k, n);
    assert Next(p, n) == k;
    assert StepOk(G, c, p) && StepOk(G, c, k);
    assert StepOk(G, c, Next(k, n));
    Row(G, v);
    assert NumberedSlot(G, v, i);
    if G.g[v][i] == c[Next(k, n)] {
      assert EdgeAt(G, c, e, k);
    }
    if G.g[v][i] == c[p] {
      assert EdgeAt(G, c, e, p);
    }
    if Uses(G, c, e) {
      var m :| EdgeAt(G, c, e, m);
      if c[m] != v {
        assert c[Next(m, n)] == v;
        assert m == p;
      }
    }
  }

  lemma CycleDegree(G: Cub, c: seq<int>, k: int)
    requires Wf(G) && IsHamCycle(G, c) && 0 <= k < |c|
    ensures StepOk(G, c, k) && Degree(G, EdgesOf(G, c), c[k]) == 2
  {
    var n := |c|;
    assert StepOk(G, c, k);
    CyclePrev(G, c, k);
    CycleSlot(G, c, k, 0);
    CycleSlot(G, c, k, 1);
    CycleSlot(G, c, k, 2);
    var v := c[k];
    assert StepOk(G, c, Next(k, n)) && StepOk(G, c, Prev(k, n));
    Row(G, v);
    assert NumberedSlot(G, v, 0) && NumberedSlot(G, v, 1) && NumberedSlot(G, v, 2);
    assert forall i :: 0 <= i < 3 ==> (G.eno[v][i] in EdgesOf(G, c) <==> Uses(G, c, G.eno[v][i]));
    assert c[Next(k, n)] != c[Prev(k, n)];
  }

  lemma ClosedStep(G: Cub, c: seq<int>, S: set<int>, k: int)
    requires Wf(G) && IsHamCycle(G, c) && ClosedUnder(G, EdgesOf(G, c), S)
    requires 0 <= k < |c| && c[k] in S
    ensures c[Next(k, |c|)] in S
  {
    assert StepOk(G, c, k);
    assert StepOk(G, c, Next(k, |c|));
    var v := c[k];
    var i := SlotOf(G.g[v], c[Next(k, |c|)]);
    CycleSlot(G, c, k, i);
    Row(G, v);
    assert NumberedSlot(G, v, i);
    assert G.eno[v][i] in EdgesOf(G, c);
    assert Stays(G, EdgesOf(G, c), S, v);
  }

  lemma {:induction false} ClosedUp(G: Cub, c: seq<int>, S: set<int>, a: int, b: int)
    requires Wf(G) && IsHamCycle(G, c) && ClosedUnder(G, EdgesOf(G, c), S)
    requires 0 <= a <= b < |c| && c[a] in S
    ensures c[b] in S
    decreases b
  {
    if a < b {
      ClosedUp(G, c, S, a, b - 1);
      ClosedStep(G, c, S, b - 1);
    }
  }

  /** The edges of a Hamiltonian cycle meet every vertex twice and connect all
      vertices. */
  lemma HamCycleIsHamSet(G: Cub, c: seq<int>)
    requires Wf(G) && IsHamCycle(G, c)
    ensures HamSet(G, EdgesOf(G, c))
  {
    var H, n := EdgesOf(G, c), |c|;
    forall i | 0 <= i < n ensures 0 <= c[i] < G.nv {
      assert StepOk(G, c, i);
    }
    forall v | 0 <= v < G.nv ensures Degree(G, H, v) == 2 {
      AllOccur(c, n, v);
      var k :| 0 <= k < n && c[k] == v;
      CycleDegree(G, c, k);
    }
    forall x, y | 0 <= x < G.nv && 0 <= y < G.nv ensures Connects(G, H, x, y) {
      forall S: set<int> | x in S && ClosedUnder(G, H, S) ensures y in S {
        AllOccur(c, n, x);
        AllOccur(c, n, y);
        var a :| 0 <= a < n && c[a] == x;
        var b :| 0 <= b < n && c[b] == y;
        ClosedUp(G, c, S, a, n - 1);
        ClosedStep(G, c, S, n - 1);
        ClosedUp(G, c, S, 0, b);
      }
    }
  }

  /** A cycle obeys a classification just when its edges do. */
  lemma AgreesIsCompat(G: Cub, cls: seq<int>, c: seq<int>)
    requires Sized(G) && |cls| >= G.ne
    ensures Agrees(G, cls, c) <==> Compat(G, cls, EdgesOf(G, c))
  {
  }
}
