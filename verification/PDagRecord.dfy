/** Which vertices of a laid-out DAG have the recorded structure below them, in terms of
    the DAG before its inputs were inserted. */
module PDagRecord {
  import opened PDag
  import opened PDagInsert
  import opened PDagLayout
  import opened PDagCone
  import opened PDagSpace

  /** The DAG that is searched. */
  function LaidOutDag(g: Rows): Rows {
    Swapped(Inserted(g, 2))
  }

  /** Gate k, not the last one, joins two different gates without children, the earlier
      one first. */
  predicate JoinsPairs(g: Rows, k: nat)
    requires IsDag(g, 2)
  {
    && k + 1 < |g| && 0 < g[k][0] < g[k][1]
    && g[g[k][0] - 1] == [0, 0] && g[g[k][1] - 1] == [0, 0]
  }

  /** Where such a gate and what it depends on lie: the inputs of the later gate, those
      of the earlier one, and the three gates. */
  function TreeOf(g: Rows, k: nat): (P: seq<int>)
    requires IsDag(g, 2) && JoinsPairs(g, k)
    ensures |P| == 7
  {
    var z, A, B := Free(g), g[k][0] - 1, g[k][1] - 1;
    [Entry(g, z, B, 1) - 1, Entry(g, z, B, 0) - 1, Entry(g, z, A, 1) - 1, Entry(g, z, A, 0) - 1, z + A, z + B, z + k]
  }

  // --- Rows of the laid-out DAG ---------------------------------------------

  lemma InputRow(g: Rows, x: nat)
    requires IsDag(g, 2) && x < Free(g)
    ensures |LaidOutDag(g)| == Free(g) + |g| && LaidOutDag(g)[x] == [0, 0]
  {
    hide Rank, Free, Entry;
    InsertedRows(g, 2);
    assert Inserted(g, 2)[x] == [0, 0];
    SwapTwo(Inserted(g, 2), [0, 0]);
  }

  /** A gate before the children of gates with two inputs are put in order. */
  lemma GateRow(g: Rows, i: nat)
    requires IsDag(g, 2) && i < |g|
    ensures |Inserted(g, 2)| == |LaidOutDag(g)| == Free(g) + |g|
    ensures |g[i]| == |Gate(g, Free(g), i)| == 2
    ensures Inserted(g, 2)[Free(g) + i] == Gate(g, Free(g), i)
    ensures forall k :: 0 <= k < 2 ==>
              var e := Gate(g, Free(g), i)[k];
              if g[i][k] > 0 then e == g[i][k] + Free(g) && e <= Free(g) + |g| else 1 <= e <= Free(g)
    ensures LaidOutDag(g)[Free(g) + i] == Swap(Inserted(g, 2), Gate(g, Free(g), i))
  {
    hide Rank, Free, Entry, Swap;
    InsertedRows(g, 2);
  }

  /** A gate without children takes two neighbouring inputs, the lower one first. */
  lemma PairRow(g: Rows, i: nat)
    requires IsDag(g, 2) && i < |g| && g[i] == [0, 0]
    ensures |LaidOutDag(g)| == Free(g) + |g|
    ensures var a := Entry(g, Free(g), i, 1);
            LaidOutDag(g)[Free(g) + i] == [a, a + 1] && 1 <= a < Free(g) && Entry(g, Free(g), i, 0) == a + 1
  {
    hide Rank, Free, Entry, IsLeafNode;
    GateRow(g, i);
    var row := Gate(g, Free(g), i);
    Neighbours(g, i, 0);
    LeafInFront(g, row[0] - 1);
    LeafInFront(g, row[1] - 1);
    SwapTwo(Inserted(g, 2), row);
  }

  /** Any other gate only has its connections renumbered. */
  lemma OtherRow(g: Rows, i: nat)
    requires IsDag(g, 2) && i < |g| && g[i] != [0, 0]
    ensures |LaidOutDag(g)| == Free(g) + |g|
    ensures LaidOutDag(g)[Free(g) + i] == Gate(g, Free(g), i)
  {
    hide Rank, Free, Entry, IsLeafNode;
    GateRow(g, i);
    var row := Gate(g, Free(g), i);
    SwapTwo(Inserted(g, 2), row);
    var k := if g[i][0] > 0 then 0 else 1;
    assert g[i][k] > 0;
    LeafInFront(g, row[k] - 1);
  }

  // --- Cones ----------------------------------------------------------------

  lemma ConeTwo(dag: Rows, v: nat)
    requires Topological(dag) && v < |dag| && |dag[v]| == 2
    ensures RowBelow(dag, v)
    ensures Cone(dag, v) == {v} + (if dag[v][0] > 0 then Cone(dag, dag[v][0] - 1) else {}) +
                            (if dag[v][1] > 0 then Cone(dag, dag[v][1] - 1) else {})
  {
    assert RowBelow(dag, v);
    assert ConeOf(dag, v, 1) == if dag[v][0] > 0 then Cone(dag, dag[v][0] - 1) else {};
  }

  /** The positions of marks are the one ascending list of what is marked. */
  lemma {:induction false} PositionsUnique(m: seq<bool>, P: seq<nat>)
    requires Rises(P) && Enumerates(m, P)
    ensures Positions(m) == P
  {
    var first := if P == [] then 0 else P[0];
    if m != [] {
      var n := |m| - 1;
      if m[n] {
        LastIs(m, P);
        PositionsUnique(m[..n], P[..|P| - 1]);
      } else {
        PositionsUnique(m[..n], P);
      }
    }
  }

  ghost predicate Enumerates(m: seq<bool>, P: seq<nat>) {
    && (forall i :: 0 <= i < |P| ==> P[i] < |m| && m[P[i]])
    && forall x :: 0 <= x < |m| && m[x] ==> exists i :: 0 <= i < |P| && P[i] == x
  }

  lemma LastIs(m: seq<bool>, P: seq<nat>)
    requires Rises(P) && Enumerates(m, P) && m != [] && m[|m| - 1]
    ensures P != [] && P[|P| - 1] == |m| - 1 && P == P[..|P| - 1] + [|m| - 1]
    ensures Enumerates(m[..|m| - 1], P[..|P| - 1])
  {
    var n := |m| - 1;
    var i :| 0 <= i < |P| && P[i] == n;
    assert P[i] <= P[|P| - 1];
    var Q := P[..|P| - 1];
    forall x | 0 <= x < n && m[..n][x] ensures exists k :: 0 <= k < |Q| && Q[k] == x {
      var k :| 0 <= k < |P| && P[k] == x;
      assert Q[k] == x;
    }
  }

  lemma ConeLeaf(dag: Rows, v: nat)
    requires Topological(dag) && v < |dag| && dag[v] == [0, 0]
    ensures Cone(dag, v) == {v}
  {
    hide Cone;
    ConeTwo(dag, v);
  }

  lemma ConePair(dag: Rows, v: nat, a: nat)
    requires Topological(dag) && a + 1 < v < |dag| && dag[v] == [a + 1, a + 2]
    requires dag[a] == dag[a + 1] == [0, 0]
    ensures Cone(dag, v) == {a, a + 1, v}
  {
    hide Cone;
    ConeTwo(dag, v);
    ConeLeaf(dag, a);
    ConeLeaf(dag, a + 1);
  }

  /** The vertices below a gate that joins two gates over inputs a, a + 1 and b, b + 1. */
  lemma JoinedCone(dag: Rows, j: nat, A: nat, B: nat, a: nat, b: nat)
    requires Topological(dag) && j + 1 < |dag| && b + 1 < a && a + 1 < A < B < j
    requires dag[j] == [A + 1, B + 1] && dag[A] == [a + 1, a + 2] && dag[B] == [b + 1, b + 2]
    requires dag[a] == dag[a + 1] == dag[b] == dag[b + 1] == [0, 0]
    ensures ConeList(dag, j) == [b, b + 1, a, a + 1, A, B, j] && ConeAt(dag, j)
  {
    hide Positions, Topological, Cone, IsCut;
    ConeTwo(dag, j);
    ConePair(dag, A, a);
    ConePair(dag, B, b);
    var P := [b, b + 1, a, a + 1, A, B, j];
    assert Cone(dag, j) == {b, b + 1, a, a + 1, A, B, j};
    Listing(dag, j, P);
    JoinedCut(dag, P);
  }

  lemma Listing(dag: Rows, j: nat, P: seq<nat>)
    requires Topological(dag) && j + 1 < |dag| && Rises(P) && P != [] && P[|P| - 1] == j
    requires Cone(dag, j) == set x | x in P
    ensures Positions(Marks(dag, j)) == P
  {
    hide Positions, Topological, Cone;
    var m := Marks(dag, j);
    forall i | 0 <= i < |P| ensures P[i] < |m| && m[P[i]] {
      assert P[i] in P && P[i] <= P[|P| - 1];
    }
    PositionsUnique(m, P);
  }

  lemma JoinedCut(dag: Rows, P: seq<nat>)
    requires Rises(P) && |P| == 7 && P[6] < |dag|
    requires dag[P[0]] == dag[P[1]] == dag[P[2]] == dag[P[3]] == [0, 0]
    requires dag[P[4]] == [P[2] + 1, P[3] + 1] && dag[P[5]] == [P[0] + 1, P[1] + 1]
    requires dag[P[6]] == [P[4] + 1, P[5] + 1]
    ensures IsCut(dag, P, SUBGRAPH)
  {
    forall r | 0 <= r < |P| ensures CutRow(dag, P, SUBGRAPH, r) {
      assert P[r] <= P[6];
    }
  }

  /** What a row of the cut says about the vertex it stands for. */
  lemma CutPair(dag: Rows, P: seq<nat>, r: nat)
    requires IsCut(dag, P, SUBGRAPH) && r < |P|
    ensures |P| == 7 && P[r] < |dag| && |dag[P[r]]| == |SUBGRAPH[r]| == 2
    ensures forall k :: 0 <= k < 2 ==>
              if SUBGRAPH[r][k] == 0 then dag[P[r]][k] == 0
              else 1 <= SUBGRAPH[r][k] <= r && dag[P[r]][k] == P[SUBGRAPH[r][k] - 1] + 1
  {
    assert CutRow(dag, P, SUBGRAPH, r);
    forall k | 0 <= k < 2 ensures CutEntry(P, r, dag[P[r]][k], SUBGRAPH[r][k]) {
    }
  }

  lemma CutBlank(dag: Rows, P: seq<nat>, r: nat)
    requires IsCut(dag, P, SUBGRAPH) && r < 4
    ensures r < |P| && P[r] < |dag| && dag[P[r]] == [0, 0]
  {
    hide IsCut;
    CutLength(dag, P);
    CutPair(dag, P, r);
  }

  lemma CutLength(dag: Rows, P: seq<nat>)
    requires IsCut(dag, P, SUBGRAPH)
    ensures |P| == 7 && P[4] < P[5] < P[6]
  {
  }

  /** The rows of a cone with the recorded structure. */
  lemma CutRows(dag: Rows, j: nat) returns (A: nat, B: nat)
    requires ConeAt(dag, j)
    ensures A < B < j < |dag| && dag[j] == [A + 1, B + 1] && OverBlanks(dag, A) && OverBlanks(dag, B)
  {
    var P := ConeList(dag, j);
    MarksLast(dag, j);
    hide Positions, Topological, Cone, IsCut, ConeList;
    CutLength(dag, P);
    A, B := P[4], P[5];
    CutPair(dag, P, 6);
    CutPair(dag, P, 5);
    CutPair(dag, P, 4);
    CutBlank(dag, P, 0);
    CutBlank(dag, P, 1);
    CutBlank(dag, P, 2);
    CutBlank(dag, P, 3);
  }

  /** Both children of x are blank rows. */
  predicate OverBlanks(dag: Rows, x: nat) {
    && x < |dag| && |dag[x]| == 2 && 1 <= dag[x][0] <= |dag| && 1 <= dag[x][1] <= |dag|
    && dag[dag[x][0] - 1] == [0, 0] && dag[dag[x][1] - 1] == [0, 0]
  }

  // --- The recorded structure -----------------------------------------------

  lemma BlankIsInput(g: Rows, x: nat)
    requires IsDag(g, 2) && x < |LaidOutDag(g)|
    ensures |LaidOutDag(g)| == Free(g) + |g|
    ensures LaidOutDag(g)[x] == [0, 0] <==> x < Free(g)
  {
    hide Rank, Free, Entry;
    if x < Free(g) {
      InputRow(g, x);
    } else {
      GateRow(g, x - Free(g));
      var row := Gate(g, Free(g), x - Free(g));
      SwapTwo(Inserted(g, 2), row);
      assert row[0] >= 1 && row[1] >= 1;
    }
  }

  lemma OtherHigh(g: Rows, i: nat)
    requires IsDag(g, 2) && i < |g| && g[i] != [0, 0]
    ensures |LaidOutDag(g)| == Free(g) + |g| && |LaidOutDag(g)[Free(g) + i]| == 2
    ensures LaidOutDag(g)[Free(g) + i][0] > Free(g) || LaidOutDag(g)[Free(g) + i][1] > Free(g)
  {
    hide Free, LaidOutDag, Gate;
    GateRow(g, i);
    OtherRow(g, i);
    var k := if g[i][0] > 0 then 0 else 1;
    assert g[i][k] > 0;
  }

  /** A row that reads blank rows only is that of a gate without children. */
  lemma OverInputs(g: Rows, x: nat)
    requires IsDag(g, 2) && OverBlanks(LaidOutDag(g), x)
    ensures Free(g) <= x < Free(g) + |g| && g[x - Free(g)] == [0, 0]
  {
    hide Rank, Free, Entry, Gate, LaidOutDag;
    BlankIsInput(g, x);
    var row := LaidOutDag(g)[x];
    BlankIsInput(g, row[0] - 1);
    BlankIsInput(g, row[1] - 1);
    var i := x - Free(g);
    assert |g[i]| == 2;
    if g[i] != [0, 0] {
      OtherHigh(g, i);
    }
  }

  /** A vertex of the laid-out DAG has the recorded structure below it exactly if it is a
      gate that joins two different gates without children, the earlier one first, and
      is not the last. */
  lemma RecordedCone(g: Rows, x: nat)
    requires IsDag(g, 2)
    ensures ConeAt(LaidOutDag(g), x) <==> x >= Free(g) && JoinsPairs(g, x - Free(g))
  {
    hide Free, LaidOutDag, ConeAt;
    if ConeAt(LaidOutDag(g), x) {
      OnlyJoins(g, x);
    }
    if x >= Free(g) && JoinsPairs(g, x - Free(g)) {
      JoinsRecorded(g, x - Free(g));
    }
  }

  lemma OnlyJoins(g: Rows, x: nat)
    requires IsDag(g, 2) && ConeAt(LaidOutDag(g), x)
    ensures x >= Free(g) && JoinsPairs(g, x - Free(g))
  {
    hide Free, LaidOutDag, IsCut, Gate, Entry, Topological, ConeAt;
    var A, B := CutRows(LaidOutDag(g), x);
    InMiddle(LaidOutDag(g), x);
    BlankIsInput(g, x);
    OverInputs(g, A);
    OverInputs(g, B);
    hide OverBlanks;
    JoinOf(g, x - Free(g), A, B);
  }

  lemma InMiddle(dag: Rows, j: nat)
    requires ConeAt(dag, j)
    ensures j + 1 < |dag|
  {
  }

  /** A gate of the laid-out DAG over two gates had these as children. */
  lemma JoinOf(g: Rows, k: nat, A: nat, B: nat)
    requires IsDag(g, 2) && k < |g| && Free(g) <= A && Free(g) <= B
    requires Free(g) + k < |LaidOutDag(g)| && LaidOutDag(g)[Free(g) + k] == [A + 1, B + 1]
    ensures |g[k]| == 2 && g[k][0] == A - Free(g) + 1 && g[k][1] == B - Free(g) + 1
  {
    hide Free, LaidOutDag, Gate, Entry;
    GateRow(g, k);
    if g[k] == [0, 0] {
      PairRow(g, k);
    } else {
      OtherRow(g, k);
    }
  }

  lemma LaidOutTopological(g: Rows)
    requires IsDag(g, 2)
    ensures Topological(LaidOutDag(g))
  {
    SwappedTopological(g, 2);
  }

  lemma JoinsRecorded(g: Rows, k: nat)
    requires IsDag(g, 2) && JoinsPairs(g, k)
    ensures ConeAt(LaidOutDag(g), Free(g) + k)
    ensures ConeList(LaidOutDag(g), Free(g) + k) == TreeOf(g, k)
  {
    hide Free, LaidOutDag, Gate, Entry, Topological, ConeAt, ConeList, IsCut;
    var z, A, B := Free(g), g[k][0] - 1, g[k][1] - 1;
    assert B < k by { assert g[k][1] <= k; }
    PairRow(g, A);
    PairRow(g, B);
    LaterBelow(g, A, B);
    var a, b := Entry(g, z, A, 1) - 1, Entry(g, z, B, 1) - 1;
    InputRow(g, a);
    InputRow(g, a + 1);
    InputRow(g, b);
    InputRow(g, b + 1);
    GateRow(g, k);
    OtherRow(g, k);
    LaidOutTopological(g);
    JoinedCone(LaidOutDag(g), z + k, z + A, z + B, a, b);
  }

  /** The inputs of a later gate lie below those of an earlier one. */
  lemma LaterBelow(g: Rows, A: nat, B: nat)
    requires IsDag(g, 2) && A < B < |g| && g[A] == [0, 0] && g[B] == [0, 0]
    ensures Entry(g, Free(g), B, 0) < Entry(g, Free(g), A, 1)
  {
    hide Rank, Free;
    PDagInsert.RankMono(g, A, 1, B, 0);
    RankBound(g, A, 1);
    RankBound(g, B, 0);
  }

  /** The tree of three gates is laid out as the recorded structure. */
  lemma RecordedTree()
    ensures IsDag([[0, 0], [0, 0], [1, 2]], 2) && LaidOutDag([[0, 0], [0, 0], [1, 2]]) == SUBGRAPH
  {
    var g: Rows := [[0, 0], [0, 0], [1, 2]];
    TreeRanks(g);
    hide Free, LaidOutDag, Entry, Gate;
    PairRow(g, 0);
    PairRow(g, 1);
    OtherRow(g, 2);
    GateRow(g, 2);
    InputRow(g, 0);
    InputRow(g, 1);
    InputRow(g, 2);
    InputRow(g, 3);
    var ws := LaidOutDag(g);
    assert ws[4] == [3, 4] && ws[5] == [1, 2] && ws[6] == [5, 6];
    assert ws == [ws[0], ws[1], ws[2], ws[3], ws[4], ws[5], ws[6]];
  }

  lemma TreeRanks(g: Rows)
    requires g == [[0, 0], [0, 0], [1, 2]]
    ensures IsDag(g, 2) && Free(g) == 4 && Entry(g, 4, 0, 1) == 3 && Entry(g, 4, 1, 1) == 1
  {
    assert ZerosIn(g[0], 1) == 1 && ZerosIn(g[0], 2) == 2 && ZerosIn(g[2], 1) == 0 && ZerosIn(g[2], 2) == 0;
    assert ZerosBefore(g, 1) == 2 && ZerosBefore(g, 2) == 4;
  }

  // --- Assignments on record ------------------------------------------------

  /** The symbols on the tree of gate k are recorded duplicate c. */
  ghost predicate RecordedAt(s: Space, d: seq<nat>, g: Rows, k: nat, c: nat)
    requires IsDag(g, 2)
  {
    && JoinsPairs(g, k) && c < |s.duplicated| && |s.duplicated[c]| == 7
    && forall i :: 0 <= i < 7 ==> TreeOf(g, k)[i] >= 0 && s.duplicated[c][i] == SymAt(s, d, TreeOf(g, k)[i])
  }

  /** An assignment is rejected for a record exactly if the symbols on the tree of some
      gate, read in the order of the vertices, are that record. */
  lemma OnRecordExactly(s: Space, d: seq<nat>, g: Rows)
    requires IsDag(g, 2) && s.dag == LaidOutDag(g)
    requires forall c :: 0 <= c < |s.duplicated| ==> |s.duplicated[c]| == 7
    ensures OnRecord(s, d) <==> exists k: nat, c: nat :: RecordedAt(s, d, g, k, c)
  {
    hide LaidOutDag, ConeAt, ConeList, Free, TreeOf, JoinsPairs;
    forall k: nat, c: nat | RecordedAt(s, d, g, k, c) ensures BadCone(s, d, Free(g) + k, c) {
      JoinsRecorded(g, k);
    }
    forall j: nat, c: nat | BadCone(s, d, j, c) ensures exists k: nat :: RecordedAt(s, d, g, k, c) {
      RecordedCone(g, j);
      JoinsRecorded(g, j - Free(g));
      assert RecordedAt(s, d, g, j - Free(g), c);
    }
  }

  /** Then that gate computes what the recorded duplicate computes. */
  lemma RecordMeaning<D>(sem: Sem<D>, s: Space, d: seq<nat>, j: nat, c: nat)
    requires BadCone(s, d, j, c) && |d| == |s.dag| && |s.duplicated[c]| == |SUBGRAPH|
    ensures Topological(s.dag) && Topological(SUBGRAPH)
    ensures EvalAt(sem, s.dag, Syms(s, d), j) == EvalAt(sem, SUBGRAPH, s.duplicated[c], |SUBGRAPH| - 1)
  {
    hide Positions, IsCut;
    SubgraphMeaning(sem, s.dag, j, SUBGRAPH, Syms(s, d));
    ConeSize(s.dag, j);
    assert Project(Syms(s, d), ConeList(s.dag, j)) == s.duplicated[c];
  }
}
