/** How vertices lie after initialisation: two input children of a gate are neighbours,
    the lower one first. */
module PDagLayout {
  import opened PDag
  import opened PDagInsert

  predicate IsLeafNode(row: seq<nat>) {
    if |row| == 2 then row[0] == 0 && row[1] == 0
    else row != [] && forall k :: 0 <= k < |row| ==> row[k] == 0
  }

  predicate InOrder(row: seq<nat>) {
    forall i, j :: 0 <= i < j < |row| ==> row[i] <= row[j]
  }

  /** A vertex of any fan-in is an input or has all its children before it. */
  predicate RowFull(vs: Rows, i: nat) {
    i < |vs| && (IsLeafNode(vs[i]) || forall k :: 0 <= k < |vs[i]| ==> 1 <= vs[i][k] <= i)
  }

  ghost predicate AllFull(vs: Rows) {
    forall i :: 0 <= i < |vs| ==> RowFull(vs, i)
  }

  /** A vertex of fan-in 2 is an input or has two children before it. */
  predicate FullRow(vs: Rows, i: nat) {
    && i < |vs| && |vs[i]| == 2
    && (IsLeafNode(vs[i]) || (1 <= vs[i][0] <= i && 1 <= vs[i][1] <= i))
  }

  predicate Full(vs: Rows) {
    forall i :: 0 <= i < |vs| ==> FullRow(vs, i)
  }

  /** Both children are inputs. */
  predicate LeafPair(vs: Rows, row: seq<nat>) {
    && |row| == 2 && 1 <= row[0] <= |vs| && 1 <= row[1] <= |vs|
    && IsLeafNode(vs[row[0] - 1]) && IsLeafNode(vs[row[1] - 1])
  }

  predicate LaidRow(vs: Rows, i: nat) {
    FullRow(vs, i) && (LeafPair(vs, vs[i]) ==> vs[i][1] == vs[i][0] + 1)
  }

  predicate Laid(vs: Rows) {
    forall i :: 0 <= i < |vs| ==> LaidRow(vs, i)
  }

  /** Gates with two input children share none of them. */
  predicate ApartAt(vs: Rows, g: nat, h: nat) {
    g < |vs| && h < |vs| && g != h && LeafPair(vs, vs[g]) && LeafPair(vs, vs[h]) ==>
      vs[g][0] != vs[h][0] && vs[g][0] != vs[h][1] && vs[g][1] != vs[h][0] && vs[g][1] != vs[h][1]
  }

  ghost predicate Apart(vs: Rows) {
    forall g: nat, h: nat :: ApartAt(vs, g, h)
  }

  /** The first two children are inputs. */
  predicate LeavesFirst(vs: Rows, row: seq<nat>) {
    && |row| >= 2 && 1 <= row[0] <= |vs| && 1 <= row[1] <= |vs|
    && IsLeafNode(vs[row[0] - 1]) && IsLeafNode(vs[row[1] - 1])
  }

  function Swap(vs: Rows, row: seq<nat>): (r: seq<nat>)
    ensures |r| == |row|
  {
    if !InOrder(row) && LeavesFirst(vs, row) then row[0 := row[1]][1 := row[0]] else row
  }

  lemma SwapTwo(vs: Rows, row: seq<nat>)
    requires |row| == 2
    ensures Swap(vs, row) == if LeafPair(vs, row) && row[0] > row[1] then [row[1], row[0]] else row
  {
  }

  function Swapped(vs: Rows): (ws: Rows)
    ensures |ws| == |vs| && forall i :: 0 <= i < |vs| ==> ws[i] == Swap(vs, vs[i])
  {
    seq(|vs|, i requires 0 <= i < |vs| => Swap(vs, vs[i]))
  }

  /** Some child is followed by a lower one. */
  predicate Descends(row: seq<nat>) {
    exists i, j :: 0 <= i < j < |row| && row[i] > row[j]
  }

  /** Exchanges the first two children of vertices whose children are not in order, if both
      are inputs, from the last vertex down. */
  method SwapLeafPairs(vs: Rows) returns (ws: Rows)
    requires AllFull(vs)
    ensures ws == Swapped(vs)
    ensures forall i :: 0 <= i < |vs| && !(LeavesFirst(vs, vs[i]) && Descends(vs[i])) ==> ws[i] == vs[i]
    ensures forall i :: 0 <= i < |vs| && LeavesFirst(vs, vs[i]) && Descends(vs[i]) ==>
              ws[i] == [vs[i][1], vs[i][0]] + vs[i][2..]
  {
    hide AllFull;
    ws := vs;
    for k := |vs| downto 0
      invariant |ws| == |vs|
      invariant forall i :: 0 <= i < k ==> ws[i] == vs[i]
      invariant forall i :: k <= i < |vs| ==> ws[i] == Swap(vs, vs[i])
    {
      assert RowFull(vs, k) by { RowFullAt(vs, k); }
      if InOrder(ws[k]) {
        continue;
      }
      var child0 := ws[ws[k][0] - 1];
      var child1 := ws[ws[k][1] - 1];
      if !IsLeafNode(child0) || !IsLeafNode(child1) {
        continue;
      }
      ws := ws[k := ws[k][0 := ws[k][1]][1 := ws[k][0]]];
    }
  }

  lemma RowFullAt(vs: Rows, k: nat)
    requires AllFull(vs) && k < |vs|
    ensures RowFull(vs, k)
  {
  }

  /** The finished DAG of any fan-in. */
  lemma InsertedRowsFull(dag: Rows, fanin: nat)
    requires IsDag(dag, fanin)
    ensures AllFull(Inserted(dag, fanin))
  {
    hide Free, Rank;
    var vs := Inserted(dag, fanin);
    InsertedRows(dag, fanin);
    forall i | 0 <= i < |vs| ensures RowFull(vs, i) {
      if i >= Free(dag) {
        assert vs[i] == Gate(dag, Free(dag), i - Free(dag));
      } else {
        assert vs[i] == Blank(fanin);
      }
    }
  }

  /** Exchanging children keeps the order of the vertices. */
  lemma SwappedTopological(dag: Rows, fanin: nat)
    requires IsDag(dag, fanin)
    ensures Topological(Swapped(Inserted(dag, fanin)))
  {
    hide Free, Rank, Entry;
    var vs := Inserted(dag, fanin);
    InsertedRows(dag, fanin);
    forall i | 0 <= i < |vs| ensures RowBelow(Swapped(vs), i) {
      assert |vs[i]| == fanin;
    }
  }

  lemma FullAt(vs: Rows, k: nat)
    requires Full(vs) && k < |vs|
    ensures FullRow(vs, k)
  {
  }

  lemma InsertedFull(dag: Rows)
    requires IsDag(dag, 2)
    ensures Full(Inserted(dag, 2))
  {
    hide Free, Rank;
    var vs := Inserted(dag, 2);
    InsertedRows(dag, 2);
    forall i | 0 <= i < |vs| ensures FullRow(vs, i) {
      if i >= Free(dag) {
        assert vs[i] == Gate(dag, Free(dag), i - Free(dag));
      }
    }
  }

  /** The inputs are exactly the vertices in front. */
  lemma LeafInFront(dag: Rows, i: nat)
    requires IsDag(dag, 2) && i < Free(dag) + |dag|
    ensures |Inserted(dag, 2)| == Free(dag) + |dag|
    ensures IsLeafNode(Inserted(dag, 2)[i]) <==> i < Free(dag)
  {
    hide Free, Rank, Entry;
    InsertedRows(dag, 2);
    if i >= Free(dag) {
      var g := i - Free(dag);
      assert Inserted(dag, 2)[i] == Gate(dag, Free(dag), g);
      assert Gate(dag, Free(dag), g)[0] > 0;
    }
  }

  /** Inserting the inputs and ordering the pairs makes the children of every gate with
      two input children neighbours. */
  lemma InitialLayout(dag: Rows)
    requires IsDag(dag, 2)
    ensures Laid(Swapped(Inserted(dag, 2)))
  {
    hide Inserted, Full, LaidRow;
    var vs := Inserted(dag, 2);
    InsertedFull(dag);
    forall i | 0 <= i < |vs| ensures LaidRow(Swapped(vs), i) {
      FullAt(vs, i);
      SwapFull(vs, i);
      if LeafPair(Swapped(vs), Swapped(vs)[i]) {
        SwapKeepsPair(vs, Swapped(vs)[i]);
        InsertedPair(dag, i);
        PairLaid(vs, i);
      } else {
        NoPairLaid(Swapped(vs), i);
      }
    }
  }

  /** A gate of the inserted DAG with two input children has them in descending order. */
  lemma InsertedPair(dag: Rows, i: nat)
    requires IsDag(dag, 2) && i < |Inserted(dag, 2)| && LeafPair(Inserted(dag, 2), Inserted(dag, 2)[i])
    ensures Inserted(dag, 2)[i][0] == Inserted(dag, 2)[i][1] + 1
  {
    hide Free, Rank, Entry;
    var row := Inserted(dag, 2)[i];
    LeafInFront(dag, 0);
    LeafInFront(dag, i);
    LeafInFront(dag, row[0] - 1);
    LeafInFront(dag, row[1] - 1);
    InsertedAt(dag, i);
    PairDescends(dag, i - Free(dag));
  }

  lemma InsertedAt(dag: Rows, i: nat)
    requires IsDag(dag, 2) && Free(dag) <= i < Free(dag) + |dag|
    ensures |Inserted(dag, 2)| == Free(dag) + |dag| && Inserted(dag, 2)[i] == Gate(dag, Free(dag), i - Free(dag))
  {
    InsertedRows(dag, 2);
  }

  lemma PairLaid(vs: Rows, i: nat)
    requires FullRow(vs, i) && LeafPair(vs, vs[i]) && vs[i][0] == vs[i][1] + 1
    ensures LaidRow(Swapped(vs), i)
  {
    SwapTwo(vs, vs[i]);
    SwapKeepsPair(vs, Swapped(vs)[i]);
  }

  lemma NoPairLaid(ws: Rows, i: nat)
    requires FullRow(ws, i) && !LeafPair(ws, ws[i])
    ensures LaidRow(ws, i)
  {
  }

  lemma SwapKeepsPair(vs: Rows, row: seq<nat>)
    ensures LeafPair(vs, row) <==> LeafPair(Swapped(vs), row)
  {
    if |row| == 2 && 1 <= row[0] <= |vs| && 1 <= row[1] <= |vs| {
      SwapKeepsLeaf(vs, row[0] - 1);
      SwapKeepsLeaf(vs, row[1] - 1);
    }
  }

  lemma SwapFull(vs: Rows, i: nat)
    requires FullRow(vs, i)
    ensures FullRow(Swapped(vs), i)
    ensures LeafPair(vs, vs[i]) <==> LeafPair(vs, Swapped(vs)[i])
    ensures IsLeafNode(vs[i]) <==> IsLeafNode(Swapped(vs)[i])
  {
    SwapTwo(vs, vs[i]);
  }

  lemma SwapKeepsLeaf(vs: Rows, i: nat)
    requires i < |vs|
    ensures IsLeafNode(vs[i]) <==> IsLeafNode(Swapped(vs)[i])
  {
    var row, row' := vs[i], Swapped(vs)[i];
    if row' != row {
      var j: nat, k: nat :| j < k < |row| && row[j] > row[k];
      assert row'[if j == 0 then 1 else if j == 1 then 0 else j] == row[j];
    }
  }

  /** Before the swaps such a pair is in descending order. */
  lemma PairDescends(dag: Rows, g: nat)
    requires IsDag(dag, 2) && g < |dag|
    ensures |Gate(dag, Free(dag), g)| == 2
    ensures var row := Gate(dag, Free(dag), g); row[0] <= Free(dag) && row[1] <= Free(dag) ==> row[0] == row[1] + 1
  {
    hide Free, Rank;
    InsertedRows(dag, 2);
    if dag[g][0] == 0 && dag[g][1] == 0 {
      Neighbours(dag, g, 0);
    }
  }

  /** No two free fan-ins get the same input, so the pairs are apart. */
  lemma InputsApart(dag: Rows)
    requires IsDag(dag, 2)
    ensures Apart(Swapped(Inserted(dag, 2)))
  {
    hide Inserted, ApartAt;
    var vs := Inserted(dag, 2);
    forall g: nat, h: nat ensures ApartAt(Swapped(vs), g, h) {
      InsertedApart(dag, g, h);
      SwapKeepsApart(vs, g, h);
    }
  }

  lemma SwapKeepsApart(vs: Rows, g: nat, h: nat)
    requires ApartAt(vs, g, h)
    ensures ApartAt(Swapped(vs), g, h)
  {
    if g < |vs| && h < |vs| {
      SwapKeepsPair(vs, Swapped(vs)[g]);
      SwapKeepsPair(vs, Swapped(vs)[h]);
    }
  }

  lemma InsertedApart(dag: Rows, g: nat, h: nat)
    requires IsDag(dag, 2)
    ensures ApartAt(Inserted(dag, 2), g, h)
  {
    hide Free, Rank, Entry, Inserted;
    var vs := Inserted(dag, 2);
    if g < |vs| && h < |vs| && g != h && LeafPair(vs, vs[g]) && LeafPair(vs, vs[h]) {
      var i := PairIsFree(dag, g);
      var j := PairIsFree(dag, h);
      EntriesDiffer(dag, 2);
      assert TwoFree(dag, 2, i, 0, j, 0) && TwoFree(dag, 2, i, 0, j, 1);
      assert TwoFree(dag, 2, i, 1, j, 0) && TwoFree(dag, 2, i, 1, j, 1);
    }
  }

  /** A gate with two input children had two free fan-ins. */
  lemma PairIsFree(dag: Rows, g: nat) returns (i: nat)
    requires IsDag(dag, 2) && g < |Inserted(dag, 2)| && LeafPair(Inserted(dag, 2), Inserted(dag, 2)[g])
    ensures i < |dag| && g == Free(dag) + i && dag[i][0] == 0 && dag[i][1] == 0
    ensures Inserted(dag, 2)[g] == [Entry(dag, Free(dag), i, 0), Entry(dag, Free(dag), i, 1)]
  {
    hide Free, Rank, Entry;
    var row := Inserted(dag, 2)[g];
    LeafInFront(dag, 0);
    LeafInFront(dag, g);
    LeafInFront(dag, row[0] - 1);
    LeafInFront(dag, row[1] - 1);
    InsertedAt(dag, g);
    i := g - Free(dag);
    InsertedRows(dag, 2);
    assert row == Gate(dag, Free(dag), i);
  }
}
