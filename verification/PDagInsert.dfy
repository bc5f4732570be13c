/** Giving every free fan-in of a partial DAG an input vertex of its own: vertices are
    inserted in front, one for each zero entry, and everything is renumbered. */
module PDagInsert {
  import opened PDag

  // --- Ranks of the free entries --------------------------------------------

  function ZerosIn(row: seq<nat>, k: nat): nat
    requires k <= |row|
  {
    if k == 0 then 0 else ZerosIn(row, k - 1) + (if row[k - 1] == 0 then 1 else 0)
  }

  function ZerosBefore(dag: Rows, g: nat): nat
    requires g <= |dag|
  {
    if g == 0 then 0 else ZerosBefore(dag, g - 1) + ZerosIn(dag[g - 1], |dag[g - 1]|)
  }

  /** The number of free entries read before entry k of row g. */
  function Rank(dag: Rows, g: nat, k: nat): nat
    requires g < |dag| && k <= |dag[g]|
  {
    ZerosBefore(dag, g) + ZerosIn(dag[g], k)
  }

  function Free(dag: Rows): nat {
    ZerosBefore(dag, |dag|)
  }

  lemma {:induction false} ZerosInMono(row: seq<nat>, j: nat, k: nat)
    requires j <= k <= |row|
    ensures ZerosIn(row, j) <= ZerosIn(row, k)
  {
    if j < k {
      ZerosInMono(row, j, k - 1);
    }
  }

  lemma {:induction false} ZerosBeforeMono(dag: Rows, g: nat, h: nat)
    requires g <= h <= |dag|
    ensures ZerosBefore(dag, g) <= ZerosBefore(dag, h)
  {
    if g < h {
      ZerosBeforeMono(dag, g, h - 1);
    }
  }

  /** Ranks of free entries increase in reading order. */
  lemma RankMono(dag: Rows, g: nat, k: nat, h: nat, l: nat)
    requires g < |dag| && k < |dag[g]| && h < |dag| && l < |dag[h]|
    requires dag[g][k] == 0 && (g < h || (g == h && k < l))
    ensures Rank(dag, g, k) < Rank(dag, h, l)
  {
    if g == h {
      ZerosInMono(dag[g], k + 1, l);
    } else {
      ZerosInMono(dag[g], k + 1, |dag[g]|);
      ZerosBeforeMono(dag, g + 1, h);
    }
  }

  lemma RankBound(dag: Rows, g: nat, k: nat)
    requires g < |dag| && k < |dag[g]| && dag[g][k] == 0
    ensures Rank(dag, g, k) < Free(dag)
  {
    ZerosInMono(dag[g], k + 1, |dag[g]|);
    ZerosBeforeMono(dag, g + 1, |dag|);
  }

  /** Every rank is taken by a free entry. */
  lemma {:induction false} RankTaken(dag: Rows, n: nat, r: nat) returns (g: nat, k: nat)
    requires n <= |dag| && r < ZerosBefore(dag, n)
    ensures g < n && k < |dag[g]| && dag[g][k] == 0 && Rank(dag, g, k) == r
  {
    if r < ZerosBefore(dag, n - 1) {
      g, k := RankTaken(dag, n - 1, r);
    } else {
      g := n - 1;
      k := RankTakenInRow(dag[g], |dag[g]|, r - ZerosBefore(dag, n - 1));
    }
  }

  lemma {:induction false} RankTakenInRow(row: seq<nat>, n: nat, r: nat) returns (k: nat)
    requires n <= |row| && r < ZerosIn(row, n)
    ensures k < n && row[k] == 0 && ZerosIn(row, k) == r
  {
    if r < ZerosIn(row, n - 1) {
      k := RankTakenInRow(row, n - 1, r);
    } else {
      k := n - 1;
    }
  }

  // --- The DAG with the first t free entries connected ----------------------

  /** The t-th vertex inserted ends up below the later ones. */
  function Entry(dag: Rows, t: nat, g: nat, k: nat): nat
    requires g < |dag| && k < |dag[g]|
  {
    var e := dag[g][k];
    if e > 0 then e + t
    else if Rank(dag, g, k) < t then t - Rank(dag, g, k)
    else 0
  }

  function Blank(fanin: nat): (row: seq<nat>)
    ensures |row| == fanin && forall k :: 0 <= k < fanin ==> row[k] == 0
  {
    seq(fanin, _ => 0)
  }

  function Gate(dag: Rows, t: nat, g: nat): (row: seq<nat>)
    requires g < |dag|
    ensures |row| == |dag[g]| && forall k :: 0 <= k < |dag[g]| ==> row[k] == Entry(dag, t, g, k)
  {
    seq(|dag[g]|, k requires 0 <= k < |dag[g]| => Entry(dag, t, g, k))
  }

  /** t input vertices in front, and the gates with t free entries connected. */
  function Partial(dag: Rows, fanin: nat, t: nat): (vs: Rows)
    ensures |vs| == t + |dag|
    ensures forall i :: 0 <= i < t ==> vs[i] == Blank(fanin)
    ensures forall g :: 0 <= g < |dag| ==> vs[t + g] == Gate(dag, t, g)
  {
    seq(t + |dag|, i requires 0 <= i < t + |dag| => if i < t then Blank(fanin) else Gate(dag, t, i - t))
  }

  /** The finished DAG. */
  function Inserted(dag: Rows, fanin: nat): Rows {
    Partial(dag, fanin, Free(dag))
  }

  /** What the rewrite promises of the rows: all inputs in front, every connection of
      a gate kept, no free entry left in a gate, and the order kept. */
  lemma InsertedRows(dag: Rows, fanin: nat)
    requires IsDag(dag, fanin)
    ensures |Inserted(dag, fanin)| == Free(dag) + |dag| && IsDag(Inserted(dag, fanin), fanin)
    ensures forall i :: 0 <= i < Free(dag) ==> Inserted(dag, fanin)[i] == Blank(fanin)
    ensures forall g, k :: 0 <= g < |dag| && 0 <= k < fanin ==>
              var e := Gate(dag, Free(dag), g)[k];
              if dag[g][k] > 0 then e == dag[g][k] + Free(dag) else 1 <= e <= Free(dag)
    ensures forall g :: 0 <= g < |dag| ==> Inserted(dag, fanin)[Free(dag) + g] == Gate(dag, Free(dag), g)
  {
    hide Rank, ZerosBefore;
    var vs, z := Inserted(dag, fanin), Free(dag);
    forall g, k | 0 <= g < |dag| && 0 <= k < fanin
      ensures if dag[g][k] > 0 then Gate(dag, z, g)[k] == dag[g][k] + z else 1 <= Gate(dag, z, g)[k] <= z
      ensures Gate(dag, z, g)[k] <= z + g
    {
      if dag[g][k] == 0 { RankBound(dag, g, k); }
    }
    forall i | 0 <= i < |vs| ensures |vs[i]| == fanin && forall k :: 0 <= k < fanin ==> vs[i][k] <= i {
      if i >= z {
        assert vs[i] == Gate(dag, z, i - z);
      }
    }
  }

  /** Two different free entries. */
  ghost predicate TwoFree(dag: Rows, fanin: nat, g: int, k: int, h: int, l: int)
    requires IsDag(dag, fanin)
  {
    && 0 <= g < |dag| && 0 <= k < fanin && 0 <= h < |dag| && 0 <= l < fanin
    && dag[g][k] == 0 && dag[h][l] == 0 && (g != h || k != l)
  }

  /** Some free entry is connected to the input vertex e - 1. */
  ghost predicate Supplied(dag: Rows, fanin: nat, e: nat)
    requires IsDag(dag, fanin)
  {
    exists g, k :: 0 <= g < |dag| && 0 <= k < fanin && dag[g][k] == 0 && Entry(dag, Free(dag), g, k) == e
  }

  /** Free entries and inputs correspond one to one. */
  lemma InsertedOneToOne(dag: Rows, fanin: nat)
    requires IsDag(dag, fanin)
    ensures forall g, k, h, l :: TwoFree(dag, fanin, g, k, h, l) ==>
              Entry(dag, Free(dag), g, k) != Entry(dag, Free(dag), h, l)
    ensures forall e :: 1 <= e <= Free(dag) ==> Supplied(dag, fanin, e)
  {
    hide Rank, ZerosBefore;
    var z := Free(dag);
    EntriesDiffer(dag, fanin);
    forall e | 1 <= e <= z ensures Supplied(dag, fanin, e) {
      var g, k := RankTaken(dag, |dag|, z - e);
      assert Entry(dag, z, g, k) == e;
    }
  }

  lemma EntriesDiffer(dag: Rows, fanin: nat)
    requires IsDag(dag, fanin)
    ensures forall g, k, h, l :: TwoFree(dag, fanin, g, k, h, l) ==>
              Entry(dag, Free(dag), g, k) != Entry(dag, Free(dag), h, l)
  {
    forall g, k, h, l | TwoFree(dag, fanin, g, k, h, l)
      ensures Entry(dag, Free(dag), g, k) != Entry(dag, Free(dag), h, l)
    {
      RankBound(dag, g, k);
      RankBound(dag, h, l);
      if g < h || (g == h && k < l) { RankMono(dag, g, k, h, l); } else { RankMono(dag, h, l, g, k); }
    }
  }

  /** Free entries next to each other get inputs next to each other, in descending
      order. */
  lemma Neighbours(dag: Rows, g: nat, k: nat)
    requires g < |dag| && k + 1 < |dag[g]| && dag[g][k] == 0 && dag[g][k + 1] == 0
    ensures Entry(dag, Free(dag), g, k) == Entry(dag, Free(dag), g, k + 1) + 1
  {
    RankBound(dag, g, k + 1);
  }

  // --- The loops ------------------------------------------------------------

  function Shifted(row: seq<nat>): (r: seq<nat>)
    ensures |r| == |row| && forall l :: 0 <= l < |row| ==> r[l] == if row[l] > 0 then row[l] + 1 else 0
  {
    seq(|row|, l requires 0 <= l < |row| => if row[l] > 0 then row[l] + 1 else 0)
  }

  /** Increments every connection in the rows from `from` on. */
  method ShiftUp(vs: Rows, from: nat) returns (ws: Rows)
    requires from <= |vs|
    ensures |ws| == |vs|
    ensures forall j :: 0 <= j < from ==> ws[j] == vs[j]
    ensures forall j :: from <= j < |vs| ==> ws[j] == Shifted(vs[j])
  {
    ws := vs;
    for j := from to |vs|
      invariant |ws| == |vs|
      invariant forall i :: 0 <= i < |vs| && (i < from || i >= j) ==> ws[i] == vs[i]
      invariant forall i :: from <= i < j ==> ws[i] == Shifted(vs[i])
    {
      for l := 0 to |vs[j]|
        invariant |ws| == |vs| && |ws[j]| == |vs[j]|
        invariant forall i :: 0 <= i < |vs| && (i < from || i > j) ==> ws[i] == vs[i]
        invariant forall i :: from <= i < j ==> ws[i] == Shifted(vs[i])
        invariant forall m :: 0 <= m < |vs[j]| ==> ws[j][m] == if m < l then Shifted(vs[j])[m] else vs[j][m]
      {
        if ws[j][l] > 0 {
          ws := ws[j := ws[j][l := ws[j][l] + 1]];
        }
      }
      assert ws[j] == Shifted(vs[j]);
    }
  }

  /** Shifting a gate and connecting the entry of rank t gives its next stage. */
  lemma GateStep(dag: Rows, t: nat, g: nat, h: nat, k: nat)
    requires g < |dag| && h < |dag| && k < |dag[h]| && dag[h][k] == 0 && Rank(dag, h, k) == t
    ensures Gate(dag, t + 1, g) == if g == h then Shifted(Gate(dag, t, g))[k := 1] else Shifted(Gate(dag, t, g))
  {
    hide Rank;
    forall l | 0 <= l < |dag[g]|
      ensures Entry(dag, t + 1, g, l) == if g == h && l == k then 1
                                         else if Entry(dag, t, g, l) > 0 then Entry(dag, t, g, l) + 1 else 0
    {
      if dag[g][l] == 0 && (g != h || l != k) {
        if g < h || (g == h && l < k) { RankMono(dag, g, l, h, k); } else { RankMono(dag, h, k, g, l); }
      }
    }
  }

  /** One insertion: a blank vertex in front, connections renumbered, and the free
      entry of rank t connected to it. */
  method InsertOne(dag: Rows, fanin: nat, t: nat, vs: Rows, row: nat, k: nat) returns (ws: Rows)
    requires IsDag(dag, fanin) && vs == Partial(dag, fanin, t)
    requires t + 1 <= row < t + 1 + |dag| && k < fanin
    requires dag[row - t - 1][k] == 0 && Rank(dag, row - t - 1, k) == t
    ensures ws == Partial(dag, fanin, t + 1)
  {
    hide Rank, Entry, Gate, Partial, Shifted, Blank;
    ws := [Blank(fanin)] + vs;
    InFront(dag, fanin, t, vs, ws);
    ws := ShiftUp(ws, t + 1);
    assert ws[row] == Shifted(Gate(dag, t, row - t - 1));
    ws := ws[row := ws[row][k := 1]];
    NextStage(dag, fanin, t, row - t - 1, k, ws);
  }

  lemma InFront(dag: Rows, fanin: nat, t: nat, vs: Rows, ws: Rows)
    requires vs == Partial(dag, fanin, t) && ws == [Blank(fanin)] + vs
    ensures |ws| == t + 1 + |dag|
    ensures forall i :: 0 <= i < t + 1 ==> ws[i] == Blank(fanin)
    ensures forall i :: t + 1 <= i < |ws| ==> ws[i] == Gate(dag, t, i - t - 1)
  {
    hide Gate, Blank;
    forall i | 0 <= i < |ws| ensures ws[i] == if i < t + 1 then Blank(fanin) else Gate(dag, t, i - t - 1) {
      if i > 0 {
        assert ws[i] == vs[i - 1];
      }
    }
  }

  lemma NextStage(dag: Rows, fanin: nat, t: nat, h: nat, k: nat, ws: Rows)
    requires h < |dag| && k < |dag[h]| && dag[h][k] == 0 && Rank(dag, h, k) == t
    requires |ws| == t + 1 + |dag|
    requires forall i :: 0 <= i < t + 1 ==> ws[i] == Blank(fanin)
    requires forall i :: t + 1 <= i < |ws| && i != t + 1 + h ==> ws[i] == Shifted(Gate(dag, t, i - t - 1))
    requires ws[t + 1 + h] == Shifted(Gate(dag, t, h))[k := 1]
    ensures ws == Partial(dag, fanin, t + 1)
  {
    hide Rank, Entry, Gate, Shifted, Blank;
    forall i | 0 <= i < |ws| ensures ws[i] == Partial(dag, fanin, t + 1)[i] {
      if i > t {
        GateStep(dag, t, i - t - 1, h, k);
      }
    }
  }

  /** All gates before g have no free entry left, and gate g is under way. */
  ghost predicate ConnectedUpTo(dag: Rows, g: nat, t: nat) {
    && g <= |dag| && ZerosBefore(dag, g) <= t <= Free(dag)
    && (g < |dag| ==> t <= ZerosBefore(dag, g + 1))
  }

  lemma RowConnected(dag: Rows, fanin: nat, g: nat, h: nat, t: nat)
    requires IsDag(dag, fanin) && h < g && ConnectedUpTo(dag, g, t)
    ensures forall k :: 0 <= k < fanin ==> Gate(dag, t, h)[k] > 0
  {
    forall k | 0 <= k < fanin ensures Entry(dag, t, h, k) > 0 {
      if dag[h][k] == 0 {
        ZerosInMono(dag[h], k + 1, fanin);
        ZerosBeforeMono(dag, h + 1, g);
      }
    }
  }

  lemma {:induction false} CountUpTo(dag: Rows, g: nat, t: nat, k: nat)
    requires g < |dag| && k <= |dag[g]| && ZerosBefore(dag, g) <= t
    requires forall l :: 0 <= l < k ==> Gate(dag, t, g)[l] > 0
    ensures Rank(dag, g, k) <= t
  {
    if k > 0 {
      CountUpTo(dag, g, t, k - 1);
      assert Gate(dag, t, g)[k - 1] == Entry(dag, t, g, k - 1);
    }
  }

  /** The first entry of a gate that is still free has rank t. */
  lemma FirstFree(dag: Rows, g: nat, t: nat, k: nat)
    requires g < |dag| && k < |dag[g]| && ConnectedUpTo(dag, g, t)
    requires Gate(dag, t, g)[k] == 0 && forall l :: 0 <= l < k ==> Gate(dag, t, g)[l] > 0
    ensures dag[g][k] == 0 && Rank(dag, g, k) == t && ConnectedUpTo(dag, g, t + 1)
  {
    CountUpTo(dag, g, t, k);
    assert Gate(dag, t, g)[k] == Entry(dag, t, g, k);
    ZerosInMono(dag[g], k + 1, |dag[g]|);
    ZerosBeforeMono(dag, g + 1, |dag|);
  }

  lemma RowDone(dag: Rows, g: nat, t: nat)
    requires g < |dag| && ConnectedUpTo(dag, g, t)
    requires forall l :: 0 <= l < |dag[g]| ==> Gate(dag, t, g)[l] > 0
    ensures ConnectedUpTo(dag, g + 1, t)
  {
    CountUpTo(dag, g, t, |dag[g]|);
    if g + 1 < |dag| {
      ZerosBeforeMono(dag, g + 1, g + 2);
    }
  }

  /** Where the loop over the rows stands: at row i with t vertices inserted, gate
      i - t is next, or the first gate is finished and blank rows are passed. */
  ghost predicate HeadOk(dag: Rows, i: nat, t: nat) {
    && t <= Free(dag) && (i == 0 ==> t == 0)
    && (0 < i <= t ==> |dag| > 0 && ConnectedUpTo(dag, 1, t))
    && (i < t ==> |dag| > 0 && t == ZerosBefore(dag, 1))
    && (i >= t ==> i - t <= |dag| && ConnectedUpTo(dag, i - t, t))
  }

  lemma RowAt(dag: Rows, fanin: nat, t: nat, i: nat)
    requires IsDag(dag, fanin) && i < t + |dag|
    ensures |Partial(dag, fanin, t)[i]| == fanin
    ensures i < t ==> Partial(dag, fanin, t)[i] == Blank(fanin)
    ensures i >= t ==> Partial(dag, fanin, t)[i] == Gate(dag, t, i - t) && |dag[i - t]| == fanin
  {
    if i >= t {
      assert Partial(dag, fanin, t)[t + (i - t)] == Gate(dag, t, i - t);
    }
  }

  /** The first gate has only free entries. */
  lemma FirstRow(dag: Rows, fanin: nat, k: nat)
    requires IsDag(dag, fanin) && |dag| > 0 && k <= fanin
    ensures k < fanin ==> dag[0][k] == 0 && Rank(dag, 0, k) == k
    ensures k == fanin ==> ConnectedUpTo(dag, 1, k)
    ensures k < fanin ==> Gate(dag, 0, 0)[k] == 0
  {
    AllFree(dag, fanin, k);
    ZerosBeforeMono(dag, 1, |dag|);
    if |dag| > 1 {
      ZerosBeforeMono(dag, 1, 2);
    }
  }

  lemma {:induction false} AllFree(dag: Rows, fanin: nat, k: nat)
    requires IsDag(dag, fanin) && |dag| > 0 && k <= fanin
    ensures ZerosIn(dag[0], k) == k
  {
    if k > 0 {
      AllFree(dag, fanin, k - 1);
    }
  }

  /** The first row: all entries are free, and the row looked at after an insertion
      is a blank input. */
  lemma ScanFirst(dag: Rows, fanin: nat, t: nat, k: nat)
    requires IsDag(dag, fanin) && |dag| > 0 && k < fanin && t == k
    ensures Partial(dag, fanin, t)[0][k] == 0
    ensures dag[0][k] == 0 && Rank(dag, 0, k) == t
  {
    FirstRow(dag, fanin, k);
    RowAt(dag, fanin, t, 0);
  }

  /** Where the loop over the entries of row i > 0 stands at entry k. */
  ghost predicate ScanOk(dag: Rows, g: nat, t0: nat, t: nat, k: nat) {
    && g < |dag| && k <= |dag[g]|
    && if t == t0 then ConnectedUpTo(dag, g, t) && forall l :: 0 <= l < k ==> Gate(dag, t0, g)[l] > 0
       else t == t0 + 1 && g > 0 && ConnectedUpTo(dag, g, t)
  }

  lemma ScanLater(dag: Rows, fanin: nat, g: nat, t0: nat, t: nat, k: nat)
    requires IsDag(dag, fanin) && ScanOk(dag, g, t0, t, k) && k < fanin && t0 + g > 0
    requires g == 0 ==> ConnectedUpTo(dag, 1, t0)
    ensures Partial(dag, fanin, t)[t0 + g][k] > 0 ==> ScanOk(dag, g, t0, t, k + 1)
    ensures Partial(dag, fanin, t)[t0 + g][k] == 0 ==>
              t == t0 && dag[g][k] == 0 && Rank(dag, g, k) == t && ScanOk(dag, g, t0, t + 1, k + 1)
  {
    hide Rank, ConnectedUpTo, Entry, Gate, Partial;
    RowAt(dag, fanin, t, t0 + g);
    if t == t0 {
      if Gate(dag, t, g)[k] == 0 {
        if g == 0 {
          RowConnected(dag, fanin, 1, 0, t0);
        }
        FirstFree(dag, g, t, k);
      }
    } else {
      RowConnected(dag, fanin, g, g - 1, t);
    }
  }

  lemma ScanEnd(dag: Rows, fanin: nat, g: nat, t0: nat, t: nat)
    requires IsDag(dag, fanin) && ScanOk(dag, g, t0, t, fanin) && t0 + g > 0 && HeadOk(dag, t0 + g, t0)
    ensures HeadOk(dag, t0 + g + 1, t)
  {
    hide Gate;
    if t == t0 {
      RowDone(dag, g, t);
    }
  }

  predicate ZeroFrom(added: seq<nat>, i: nat) {
    forall j :: i <= j < |added| ==> added[j] == 0
  }

  /** The loop over the entries of row i. After an insertion row i holds the row that
      was before it: a finished gate, or, for the first gate, a blank input. */
  method ScanRow(dag: Rows, fanin: nat, vs0: Rows, added0: seq<nat>, t0: nat, i: nat)
      returns (vs: Rows, added: seq<nat>, addedElements: nat)
    requires IsDag(dag, fanin) && vs0 == Partial(dag, fanin, t0) && |added0| == |vs0|
    requires t0 <= i < |vs0| && ZeroFrom(added0, i) && HeadOk(dag, i, t0)
    ensures vs == Partial(dag, fanin, addedElements) && |added| == |vs|
    ensures ZeroFrom(added, i + 1)
    ensures HeadOk(dag, i + 1, addedElements)
  {
    hide Rank, Entry, Gate, ConnectedUpTo, ZerosBefore, Blank, ScanOk, HeadOk;
    ghost var g := i - t0;
    vs, added, addedElements := vs0, added0, t0;
    ScanStart(dag, fanin, i, t0);
    for k := 0 to fanin
      invariant vs == Partial(dag, fanin, addedElements) && |added| == |vs|
      invariant t0 <= addedElements && added[i] == addedElements - t0
      invariant ZeroFrom(added, i + 1)
      invariant i == 0 ==> addedElements == k
      invariant i > 0 ==> ScanOk(dag, g, t0, addedElements, k)
    {
      var t := addedElements;
      RowAt(dag, fanin, t, i);
      if i == 0 {
        ScanFirst(dag, fanin, t, k);
      } else {
        ScanLater(dag, fanin, g, t0, t, k);
      }
      if vs[i][k] == 0 {
        added := added[i := added[i] + 1];
        addedElements := addedElements + 1;
        added := added + [0];
        vs := InsertOne(dag, fanin, t, vs, i + added[i], k);
      }
    }
    if i == 0 {
      FirstHead(dag, fanin);
    } else {
      ScanEnd(dag, fanin, g, t0, addedElements);
    }
  }

  lemma ScanStart(dag: Rows, fanin: nat, i: nat, t: nat)
    requires IsDag(dag, fanin) && t <= i < t + |dag| && HeadOk(dag, i, t)
    ensures i == 0 ==> t == 0
    ensures ScanOk(dag, i - t, t, t, 0)
    ensures i > 0 && i == t ==> ConnectedUpTo(dag, 1, t)
  {
  }

  lemma FirstHead(dag: Rows, fanin: nat)
    requires IsDag(dag, fanin) && |dag| > 0
    ensures HeadOk(dag, 1, fanin)
  {
    FirstRow(dag, fanin, fanin);
    AllFree(dag, fanin, fanin);
    assert ZerosBefore(dag, 1) == ZerosIn(dag[0], fanin);
  }

  lemma SkipRow(dag: Rows, i: nat, t: nat)
    requires HeadOk(dag, i, t) && 0 < i < t
    ensures HeadOk(dag, i + 1, t)
  {
    ZerosBeforeMono(dag, 0, 1);
  }

  lemma HeadBound(dag: Rows, i: nat, t: nat)
    requires HeadOk(dag, i, t)
    ensures t <= Free(dag)
    ensures i >= t ==> i <= t + |dag|
    ensures i == t + |dag| ==> t == Free(dag)
  {
  }

  /** Gives every free entry an input of its own. The loop looks at row i, which after
      an insertion is the row before; it reaches the changed row again at i + 1. */
  method InsertInputs(dag: Rows, fanin: nat) returns (vs: Rows, addedElements: nat)
    requires IsDag(dag, fanin)
    ensures vs == Inserted(dag, fanin) && addedElements == Free(dag)
  {
    hide Rank, Entry, Gate, ConnectedUpTo, ZerosBefore, HeadOk, Blank;
    vs, addedElements := dag, 0;
    NoneInserted(dag, fanin);
    var added := seq(|vs|, _ => 0);
    var i := 0;
    while i < |vs|
      invariant 0 <= i <= |vs| == |added| && vs == Partial(dag, fanin, addedElements)
      invariant i == 0 ==> addedElements == 0 && ZeroFrom(added, 0)
      invariant i > 0 ==> i == |vs|
      invariant HeadOk(dag, i, addedElements)
      decreases |vs| - i
    {
      i := addedElements;
      while i < |vs|
        invariant 0 <= i <= |vs| == |added| && vs == Partial(dag, fanin, addedElements)
        invariant ZeroFrom(added, i)
        invariant HeadOk(dag, i, addedElements)
        decreases |dag| + Free(dag) - i
      {
        HeadBound(dag, i, addedElements);
        if i >= addedElements {
          vs, added, addedElements := ScanRow(dag, fanin, vs, added, addedElements, i);
        } else {
          HeadStart(dag, i, addedElements);
          SkipRow(dag, i, addedElements);
        }
        HeadBound(dag, i + 1, addedElements);
        i := i + 1;
      }
    }
    HeadBound(dag, i, addedElements);
  }

  lemma HeadStart(dag: Rows, i: nat, t: nat)
    requires HeadOk(dag, i, t)
    ensures i == 0 ==> t == 0
  {
  }

  lemma NoneInserted(dag: Rows, fanin: nat)
    requires IsDag(dag, fanin)
    ensures dag == Partial(dag, fanin, 0) && HeadOk(dag, 0, 0)
    ensures |dag| == 0 ==> Free(dag) == 0
  {
    ZerosBeforeMono(dag, 0, |dag|);
    if |dag| > 0 {
      ZerosBeforeMono(dag, 0, 1);
    }
    forall g | 0 <= g < |dag| ensures dag[g] == Gate(dag, 0, g) {
    }
    assert forall g :: 0 <= g < |dag| ==> Partial(dag, fanin, 0)[0 + g] == Gate(dag, 0, g);
  }
}
