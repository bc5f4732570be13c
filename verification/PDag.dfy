/** Partial DAGs as rows of fan-ins. */
module PDag {

  type Rows = seq<seq<nat>>

  /** Entry 0 is a free fan-in; entry e > 0 means vertex e - 1, which comes earlier. */
  predicate IsDag(dag: Rows, fanin: nat) {
    && (forall g :: 0 <= g < |dag| ==> |dag[g]| == fanin)
    && (forall g, k :: 0 <= g < |dag| && 0 <= k < fanin ==> dag[g][k] <= g)
  }

  predicate RowBelow(dag: Rows, g: nat)
    requires g < |dag|
  {
    forall k :: 0 <= k < |dag[g]| ==> dag[g][k] <= g
  }

  /** The order of the vertices alone, for rows of any length. */
  predicate Topological(dag: Rows) {
    forall g :: 0 <= g < |dag| ==> RowBelow(dag, g)
  }

  ghost predicate InRows(dag: Rows, vs: seq<nat>) {
    forall i :: 0 <= i < |vs| ==> vs[i] < |dag|
  }

  /** The number of connected entries among the first k. */
  function Connected(row: seq<nat>, k: nat): (n: nat)
    requires k <= |row|
    ensures n <= k
  {
    if k == 0 then 0 else Connected(row, k - 1) + (if row[k - 1] > 0 then 1 else 0)
  }

  /** The number of children. */
  function Children(row: seq<nat>): nat {
    Connected(row, |row|)
  }

  lemma {:induction false} ConnectedCount(row: seq<nat>, k: nat)
    requires k <= |row|
    ensures Connected(row, k) == |set j | 0 <= j < k && row[j] > 0|
  {
    if k > 0 {
      ConnectedCount(row, k - 1);
      var before := set j | 0 <= j < k - 1 && row[j] > 0;
      assert (set j | 0 <= j < k && row[j] > 0) == before + if row[k - 1] > 0 then {k - 1} else {};
    }
  }
}
