/** Cutting the cone of a vertex out of a DAG: marking what it reaches, erasing the
    rest row by row with renumbering, and what that means for evaluation. */
module PDagCone {
  import opened PDag

  // --- Meaning --------------------------------------------------------------

  /** What a symbol computes from the values of its children. */
  datatype Sem<!D> = Sem(op: (nat, seq<D>) -> D)

  /** The value of vertex v under assignment a. */
  function EvalAt<D>(sem: Sem<D>, dag: Rows, a: seq<nat>, v: nat): D
    requires Topological(dag) && |a| == |dag| && v < |dag|
    decreases v, |dag[v]| + 1
  {
    sem.op(a[v], Args(sem, dag, a, v, |dag[v]|))
  }

  /** The values of the children among the first k entries of v. */
  function Args<D>(sem: Sem<D>, dag: Rows, a: seq<nat>, v: nat, k: nat): seq<D>
    requires Topological(dag) && |a| == |dag| && v < |dag| && k <= |dag[v]|
    decreases v, k
  {
    if k == 0 then []
    else
      assert RowBelow(dag, v);
      Args(sem, dag, a, v, k - 1) +
      (if dag[v][k - 1] > 0 then [EvalAt(sem, dag, a, dag[v][k - 1] - 1)] else [])
  }

  /** An input evaluates its symbol on nothing, and a gate with two children on the values
      of the left and the right one, in this order. */
  lemma EvalTwo<D>(sem: Sem<D>, dag: Rows, a: seq<nat>, v: nat)
    requires Topological(dag) && |a| == |dag| && v < |dag| && |dag[v]| == 2
    ensures RowBelow(dag, v)
    ensures dag[v] == [0, 0] ==> EvalAt(sem, dag, a, v) == sem.op(a[v], [])
    ensures dag[v][0] > 0 && dag[v][1] > 0 ==>
              EvalAt(sem, dag, a, v) ==
              sem.op(a[v], [EvalAt(sem, dag, a, dag[v][0] - 1), EvalAt(sem, dag, a, dag[v][1] - 1)])
  {
    assert RowBelow(dag, v);
    assert Args(sem, dag, a, v, 0) == [];
    if dag[v][0] > 0 && dag[v][1] > 0 {
      var x, y := EvalAt(sem, dag, a, dag[v][0] - 1), EvalAt(sem, dag, a, dag[v][1] - 1);
      assert Args(sem, dag, a, v, 1) == [] + [x] == [x];
      assert Args(sem, dag, a, v, 2) == [x] + [y] == [x, y];
    }
  }

  // --- The cone -------------------------------------------------------------

  /** The vertices v depends on, itself included. */
  ghost function Cone(dag: Rows, v: nat): set<nat>
    requires Topological(dag) && v < |dag|
    decreases v, |dag[v]| + 1
  {
    {v} + ConeOf(dag, v, |dag[v]|)
  }

  ghost function ConeOf(dag: Rows, v: nat, k: nat): set<nat>
    requires Topological(dag) && v < |dag| && k <= |dag[v]|
    decreases v, k
  {
    if k == 0 then {}
    else
      assert RowBelow(dag, v);
      ConeOf(dag, v, k - 1) + (if dag[v][k - 1] > 0 then Cone(dag, dag[v][k - 1] - 1) else {})
  }

  lemma {:induction false} ConeBelow(dag: Rows, v: nat, x: nat)
    requires Topological(dag) && v < |dag| && x in Cone(dag, v)
    ensures x <= v
    decreases v, |dag[v]| + 1
  {
    if x != v {
      ConeOfBelow(dag, v, |dag[v]|, x);
    }
  }

  lemma {:induction false} ConeOfBelow(dag: Rows, v: nat, k: nat, x: nat)
    requires Topological(dag) && v < |dag| && k <= |dag[v]| && x in ConeOf(dag, v, k)
    ensures x < v
    decreases v, k
  {
    assert RowBelow(dag, v);
    if x in ConeOf(dag, v, k - 1) {
      ConeOfBelow(dag, v, k - 1, x);
    } else {
      ConeBelow(dag, dag[v][k - 1] - 1, x);
    }
  }

  lemma {:induction false} ConeOfChild(dag: Rows, v: nat, k: nat, l: nat)
    requires Topological(dag) && v < |dag| && l < k <= |dag[v]| && dag[v][l] > 0
    ensures RowBelow(dag, v) && Cone(dag, dag[v][l] - 1) <= ConeOf(dag, v, k)
    decreases k
  {
    assert RowBelow(dag, v);
    if l < k - 1 {
      ConeOfChild(dag, v, k - 1, l);
    }
  }

  /** A cone contains the children of its members. */
  lemma {:induction false} ConeClosed(dag: Rows, v: nat, x: nat, l: nat)
    requires Topological(dag) && v < |dag| && x in Cone(dag, v) && x < |dag| && l < |dag[x]| && dag[x][l] > 0
    ensures dag[x][l] - 1 in Cone(dag, v)
    decreases v, |dag[v]| + 1
  {
    if x == v {
      ConeOfChild(dag, v, |dag[v]|, l);
      assert dag[v][l] - 1 in Cone(dag, dag[v][l] - 1);
    } else {
      ConeOfClosed(dag, v, |dag[v]|, x, l);
    }
  }

  lemma {:induction false} ConeOfClosed(dag: Rows, v: nat, k: nat, x: nat, l: nat)
    requires Topological(dag) && v < |dag| && k <= |dag[v]| && x in ConeOf(dag, v, k)
    requires x < |dag| && l < |dag[x]| && dag[x][l] > 0
    ensures dag[x][l] - 1 in ConeOf(dag, v, k)
    decreases v, k
  {
    assert RowBelow(dag, v);
    if x in ConeOf(dag, v, k - 1) {
      ConeOfClosed(dag, v, k - 1, x, l);
    } else {
      ConeClosed(dag, dag[v][k - 1] - 1, x, l);
    }
  }

  /** Marks the cone of v. */
  method Mark(dag: Rows, v: nat, grab: array<bool>)
    requires Topological(dag) && v < |dag| == grab.Length
    modifies grab
    ensures forall x :: 0 <= x < |dag| ==> grab[x] == (old(grab[x]) || x in Cone(dag, v))
    decreases v, |dag[v]| + 1
  {
    grab[v] := true;
    MarkChildren(dag, v, grab);
  }

  /** Marks the cones of the children of v. */
  method MarkChildren(dag: Rows, v: nat, grab: array<bool>)
    requires Topological(dag) && v < |dag| == grab.Length
    modifies grab
    ensures forall x :: 0 <= x < |dag| ==> grab[x] == (old(grab[x]) || x in ConeOf(dag, v, |dag[v]|))
    decreases v, |dag[v]|
  {
    assert RowBelow(dag, v);
    for k := 0 to |dag[v]|
      invariant forall x :: 0 <= x < |dag| ==> grab[x] == (old(grab[x]) || x in ConeOf(dag, v, k))
    {
      var item := dag[v][k];
      if item > 0 {
        Mark(dag, item - 1, grab);
      }
    }
  }

  // --- Positions of marks ---------------------------------------------------

  function Positions(m: seq<bool>): seq<nat> {
    if m == [] then []
    else Positions(m[..|m| - 1]) + (if m[|m| - 1] then [|m| - 1] else [])
  }

  /** The number of marks before x. */
  function RankOf(m: seq<bool>, x: nat): (r: nat)
    requires x <= |m|
    ensures r <= x
    decreases x
  {
    if x == 0 then 0 else RankOf(m, x - 1) + (if m[x - 1] then 1 else 0)
  }

  /** There are as many positions as marks. */
  lemma {:induction false} PositionCount(m: seq<bool>)
    ensures |Positions(m)| == RankOf(m, |m|)
  {
    if m != [] {
      var n := |m| - 1;
      PositionCount(m[..n]);
      RankPrefix(m, n, n);
    }
  }

  /** A marked vertex is at the position of its rank. */
  lemma {:induction false} PositionOf(m: seq<bool>, x: nat)
    requires x < |m| && m[x]
    ensures RankOf(m, x) < |Positions(m)| && Positions(m)[RankOf(m, x)] == x
  {
    var n := |m| - 1;
    RankPrefix(m, n, x);
    if x == n {
      PositionCount(m[..n]);
    } else {
      PositionOf(m[..n], x);
    }
  }

  /** Positions are of marked vertices. */
  lemma {:induction false} PositionAt(m: seq<bool>, r: nat)
    requires r < |Positions(m)|
    ensures Positions(m)[r] < |m| && m[Positions(m)[r]] && RankOf(m, Positions(m)[r]) == r
  {
    var n := |m| - 1;
    PositionCount(m[..n]);
    if r < |Positions(m[..n])| {
      PositionAt(m[..n], r);
      RankPrefix(m, n, Positions(m)[r]);
    } else {
      RankPrefix(m, n, n);
    }
  }

  ghost predicate Rises(P: seq<nat>) {
    forall r, s :: 0 <= r < s < |P| ==> P[r] < P[s]
  }

  lemma {:induction false} PositionsRise(m: seq<bool>)
    ensures Rises(Positions(m))
  {
    if m != [] {
      var n := |m| - 1;
      PositionsRise(m[..n]);
      forall r | 0 <= r < |Positions(m[..n])| ensures Positions(m)[r] < n {
        PositionAt(m[..n], r);
      }
    }
  }

  lemma {:induction false} RankPrefix(m: seq<bool>, n: nat, x: nat)
    requires x <= n <= |m|
    ensures RankOf(m[..n], x) == RankOf(m, x)
    decreases x
  {
    if x > 0 {
      RankPrefix(m, n, x - 1);
    }
  }

  lemma {:induction false} RankMono(m: seq<bool>, x: nat, y: nat)
    requires x <= y <= |m|
    ensures RankOf(m, x) <= RankOf(m, y) <= RankOf(m, x) + (y - x)
    decreases y
  {
    if x < y {
      RankMono(m, x, y - 1);
    }
  }

  // --- Erasing --------------------------------------------------------------

  /** Entry e after the unmarked vertices before o have been erased. */
  function Renumber(m: seq<bool>, o: nat, e: nat): nat
    requires o <= |m| && e <= |m|
  {
    if e == 0 then 0
    else if e - 1 < o then (if m[e - 1] then RankOf(m, e - 1) + 1 else 0)
    else e - (o - RankOf(m, o))
  }

  function RenumberRow(m: seq<bool>, o: nat, row: seq<nat>): (r: seq<nat>)
    requires o <= |m| && forall k :: 0 <= k < |row| ==> row[k] <= |m|
    ensures |r| == |row| && forall k :: 0 <= k < |row| ==> r[k] == Renumber(m, o, row[k])
  {
    seq(|row|, k requires 0 <= k < |row| => Renumber(m, o, row[k]))
  }

  ghost predicate InRange(m: seq<bool>, dag: Rows) {
    |m| == |dag| && Topological(dag)
  }

  lemma RowInRange(m: seq<bool>, dag: Rows, g: nat)
    requires InRange(m, dag) && g < |dag|
    ensures forall k :: 0 <= k < |dag[g]| ==> dag[g][k] <= g && dag[g][k] <= |m|
  {
    assert RowBelow(dag, g);
  }

  /** The vertex that row r holds after the unmarked vertices before o are erased. */
  function Origin(m: seq<bool>, o: nat, r: nat): nat
    requires o <= |m|
  {
    if r < RankOf(m, o) && r < |Positions(m)| then Positions(m)[r]
    else if r < RankOf(m, o) then 0 else r - RankOf(m, o) + o
  }

  ghost predicate RowFrom(m: seq<bool>, dag: Rows, o: nat, rows: Rows, grab: seq<bool>, r: nat) {
    && InRange(m, dag) && o <= |dag| && r < |rows| && r < |grab| && Origin(m, o, r) < |dag|
    && grab[r] == m[Origin(m, o, r)]
    && (RowInRange(m, dag, Origin(m, o, r)); rows[r] == RenumberRow(m, o, dag[Origin(m, o, r)]))
  }

  /** The rows after the unmarked vertices before o have been erased. */
  ghost predicate ErasedUpTo(m: seq<bool>, dag: Rows, o: nat, rows: Rows, grab: seq<bool>) {
    && InRange(m, dag) && o <= |dag|
    && |rows| == |grab| == RankOf(m, o) + (|dag| - o)
    && forall r :: 0 <= r < |rows| ==> RowFrom(m, dag, o, rows, grab, r)
  }

  /** Below the rank of o, rows come from marked vertices before o. */
  lemma OriginFacts(m: seq<bool>, o: nat, r: nat)
    requires o <= |m|
    ensures RankOf(m, o) <= |Positions(m)| == RankOf(m, |m|)
    ensures r < RankOf(m, o) ==> Origin(m, o, r) < o && m[Origin(m, o, r)] && Origin(m, o, r) == Positions(m)[r]
    ensures r >= RankOf(m, o) ==> Origin(m, o, r) == r - RankOf(m, o) + o
  {
    PositionCount(m);
    RankMono(m, o, |m|);
    if r < RankOf(m, o) {
      PositionAt(m, r);
      if Positions(m)[r] >= o {
        RankMono(m, o, Positions(m)[r]);
      }
    }
  }

  /** A marked vertex moves to the row of its rank. */
  lemma OriginKeep(m: seq<bool>, o: nat, r: nat)
    requires o < |m| && m[o]
    ensures Origin(m, o, r) == Origin(m, o + 1, r)
  {
    OriginFacts(m, o, r);
    OriginFacts(m, o + 1, r);
    PositionOf(m, o);
    assert RankOf(m, o + 1) == RankOf(m, o) + 1;
  }

  /** Without vertex o the later vertices move up by one row. */
  lemma OriginErase(m: seq<bool>, o: nat, r: nat)
    requires o < |m| && !m[o]
    ensures RankOf(m, o + 1) == RankOf(m, o)
    ensures Origin(m, o + 1, r) == Origin(m, o, if r < RankOf(m, o) then r else r + 1)
  {
    OriginFacts(m, o, r);
    OriginFacts(m, o + 1, r);
  }

  /** The renumbering of one row when row i is erased. */
  function Dropped(i: nat, row: seq<nat>): (r: seq<nat>)
    ensures |r| == |row|
    ensures forall k :: 0 <= k < |row| ==>
              r[k] == if row[k] == i + 1 then 0 else if row[k] > i then row[k] - 1 else row[k]
  {
    seq(|row|, k requires 0 <= k < |row| => if row[k] == i + 1 then 0 else if row[k] > i then row[k] - 1 else row[k])
  }

  /** Renumbers the rows from i on after row i has been erased. */
  method DropIn(rows: Rows, i: nat) returns (rs: Rows)
    requires i <= |rows|
    ensures |rs| == |rows|
    ensures forall j :: 0 <= j < i ==> rs[j] == rows[j]
    ensures forall j :: i <= j < |rows| ==> rs[j] == Dropped(i, rows[j])
  {
    rs := rows;
    for j := i to |rows|
      invariant |rs| == |rows|
      invariant forall l :: 0 <= l < |rows| && (l < i || l >= j) ==> rs[l] == rows[l]
      invariant forall l :: i <= l < j ==> rs[l] == Dropped(i, rows[l])
    {
      for k := 0 to |rows[j]|
        invariant |rs| == |rows| && |rs[j]| == |rows[j]|
        invariant forall l :: 0 <= l < |rows| && (l < i || l > j) ==> rs[l] == rows[l]
        invariant forall l :: i <= l < j ==> rs[l] == Dropped(i, rows[l])
        invariant forall l :: 0 <= l < |rows[j]| ==> rs[j][l] == if l < k then Dropped(i, rows[j])[l] else rows[j][l]
      {
        if rs[j][k] == i + 1 {
          rs := rs[j := rs[j][k := 0]];
        }
        if rs[j][k] > 0 && rs[j][k] > i {
          rs := rs[j := rs[j][k := rs[j][k] - 1]];
        }
      }
      assert rs[j] == Dropped(i, rows[j]);
    }
  }

  lemma DropRenumbers(m: seq<bool>, dag: Rows, o: nat, x: nat)
    requires InRange(m, dag) && o < x < |dag| && !m[o]
    ensures forall k :: 0 <= k < |dag[x]| ==> dag[x][k] <= |m|
    ensures Dropped(RankOf(m, o), RenumberRow(m, o, dag[x])) == RenumberRow(m, o + 1, dag[x])
  {
    RowInRange(m, dag, x);
    forall k | 0 <= k < |dag[x]|
      ensures Dropped(RankOf(m, o), RenumberRow(m, o, dag[x]))[k] == Renumber(m, o + 1, dag[x][k])
    {
      var e := dag[x][k];
      if 0 < e <= o && m[e - 1] {
        RankMono(m, e, o);
      }
    }
  }

  lemma KeepsRow(m: seq<bool>, dag: Rows, o: nat, x: nat)
    requires InRange(m, dag) && o < |dag| && x < |dag| && (x <= o || m[o])
    ensures forall k :: 0 <= k < |dag[x]| ==> dag[x][k] <= |m|
    ensures RenumberRow(m, o, dag[x]) == RenumberRow(m, o + 1, dag[x])
  {
    RowInRange(m, dag, x);
    assert RankOf(m, o + 1) == RankOf(m, o) + (if m[o] then 1 else 0);
  }

  /** A marked row stays. */
  lemma KeepStep(m: seq<bool>, dag: Rows, o: nat, rows: Rows, grab: seq<bool>)
    requires ErasedUpTo(m, dag, o, rows, grab) && o < |dag| && m[o]
    ensures ErasedUpTo(m, dag, o + 1, rows, grab)
  {
    hide RenumberRow, Topological, Origin, Positions;
    var o' := o + 1;
    assert RankOf(m, o') == RankOf(m, o) + 1;
    forall r | 0 <= r < |rows| ensures RowFrom(m, dag, o', rows, grab, r) {
      assert RowFrom(m, dag, o, rows, grab, r);
      OriginKeep(m, o, r);
      KeepsRow(m, dag, o, Origin(m, o, r));
    }
  }

  /** An unmarked row is erased and the rows behind it are renumbered. */
  lemma EraseStep(m: seq<bool>, dag: Rows, o: nat, rows: Rows, grab: seq<bool>, i: nat, rows': Rows, grab': seq<bool>)
    requires ErasedUpTo(m, dag, o, rows, grab) && o < |dag| && !m[o] && i == RankOf(m, o)
    requires |grab'| == |rows'| == |rows| - 1
    requires forall j :: 0 <= j < |grab'| ==> grab'[j] == grab[if j < i then j else j + 1]
    requires forall j :: 0 <= j < i ==> rows'[j] == rows[j]
    requires forall j :: i <= j < |rows'| ==> rows'[j] == Dropped(i, rows[j + 1])
    ensures ErasedUpTo(m, dag, o + 1, rows', grab')
  {
    hide RenumberRow, Topological, Dropped, Origin, Positions, RowFrom;
    var o' := o + 1;
    assert RankOf(m, o') == i;
    forall r | 0 <= r < |rows'| ensures RowFrom(m, dag, o', rows', grab', r) {
      if r < i {
        ErasedBefore(m, dag, o, rows, grab, rows', grab', r);
      } else {
        assert RowFrom(m, dag, o, rows, grab, r + 1);
        ErasedBehind(m, dag, o, rows, grab, rows', grab', r);
      }
    }
  }

  lemma ErasedBefore(m: seq<bool>, dag: Rows, o: nat, rows: Rows, grab: seq<bool>, rows': Rows, grab': seq<bool>,
      r: nat)
    requires RowFrom(m, dag, o, rows, grab, r) && o < |dag| && !m[o] && r < RankOf(m, o)
    requires r < |grab'| && r < |rows'| && grab'[r] == grab[r] && rows'[r] == rows[r]
    ensures RowFrom(m, dag, o + 1, rows', grab', r)
  {
    hide RenumberRow, Topological, Origin, Positions, RankOf;
    OriginErase(m, o, r);
    OriginFacts(m, o, r);
    KeepsRow(m, dag, o, Origin(m, o, r));
  }

  lemma ErasedBehind(m: seq<bool>, dag: Rows, o: nat, rows: Rows, grab: seq<bool>, rows': Rows, grab': seq<bool>,
      r: nat)
    requires RowFrom(m, dag, o, rows, grab, r + 1) && o < |dag| && !m[o] && r >= RankOf(m, o)
    requires r < |grab'| && r < |rows'| && grab'[r] == grab[r + 1] && rows'[r] == Dropped(RankOf(m, o), rows[r + 1])
    ensures RowFrom(m, dag, o + 1, rows', grab', r)
  {
    hide RenumberRow, Topological, Origin, Positions, RankOf, Dropped;
    OriginErase(m, o, r);
    OriginFacts(m, o, r + 1);
    DropRenumbers(m, dag, o, Origin(m, o, r + 1));
  }

  // --- The cut --------------------------------------------------------------

  /** Row r of sub is the row of vertex P[r] with its children renumbered to their rows. */
  ghost predicate CutRow(dag: Rows, P: seq<nat>, sub: Rows, r: nat) {
    && r < |P| && r < |sub| && P[r] < |dag| && |sub[r]| == |dag[P[r]]|
    && forall k :: 0 <= k < |sub[r]| ==> CutEntry(P, r, dag[P[r]][k], sub[r][k])
  }

  /** Entry e of the graph and entry c of row r mean the same vertex, an earlier one, or
      neither means one. */
  ghost predicate CutEntry(P: seq<nat>, r: nat, e: nat, c: nat) {
    if e == 0 then c == 0 else 1 <= c <= r < |P| && P[c - 1] == e - 1
  }

  /** sub is the part of dag at the vertices P under the renumbering that keeps their order. */
  ghost predicate IsCut(dag: Rows, P: seq<nat>, sub: Rows) {
    && Rises(P) && |sub| == |P|
    && forall r :: 0 <= r < |P| ==> CutRow(dag, P, sub, r)
  }

  /** There is no other. */
  lemma CutUnique(dag: Rows, P: seq<nat>, sub: Rows, sub': Rows)
    requires IsCut(dag, P, sub) && IsCut(dag, P, sub')
    ensures sub == sub'
  {
    forall r | 0 <= r < |P| ensures sub[r] == sub'[r] {
      assert CutRow(dag, P, sub, r) && CutRow(dag, P, sub', r);
      forall k | 0 <= k < |sub[r]| ensures sub[r][k] == sub'[r][k] {
        assert CutEntry(P, r, dag[P[r]][k], sub[r][k]) && CutEntry(P, r, dag[P[r]][k], sub'[r][k]);
        SameEntry(P, r, dag[P[r]][k], sub[r][k], sub'[r][k]);
      }
    }
  }

  lemma SameEntry(P: seq<nat>, r: nat, e: nat, c: nat, d: nat)
    requires Rises(P) && CutEntry(P, r, e, c) && CutEntry(P, r, e, d)
    ensures c == d
  {
  }

  lemma CutTopological(dag: Rows, P: seq<nat>, sub: Rows)
    requires IsCut(dag, P, sub)
    ensures Topological(sub)
  {
    forall r | 0 <= r < |sub| ensures RowBelow(sub, r) {
      assert CutRow(dag, P, sub, r);
      assert forall k :: 0 <= k < |sub[r]| ==> CutEntry(P, r, dag[P[r]][k], sub[r][k]);
    }
  }

  /** What an assignment gives to the vertices P. */
  function Project(a: seq<nat>, P: seq<nat>): (b: seq<nat>)
    requires forall r :: 0 <= r < |P| ==> P[r] < |a|
    ensures |b| == |P| && forall r :: 0 <= r < |P| ==> b[r] == a[P[r]]
  {
    seq(|P|, r requires 0 <= r < |P| => a[P[r]])
  }

  ghost predicate Fits(dag: Rows, P: seq<nat>, sub: Rows, a: seq<nat>) {
    && Topological(dag) && Topological(sub) && IsCut(dag, P, sub) && |a| == |dag|
    && forall r :: 0 <= r < |P| ==> P[r] < |a|
  }

  /** Every vertex of the cut has the value it has in the whole graph. */
  lemma {:induction false} EvalCut<D>(sem: Sem<D>, dag: Rows, P: seq<nat>, sub: Rows, a: seq<nat>, r: nat)
    requires Fits(dag, P, sub, a) && r < |P|
    ensures EvalAt(sem, sub, Project(a, P), r) == EvalAt(sem, dag, a, P[r])
    decreases r, |sub[r]| + 1
  {
    assert CutRow(dag, P, sub, r);
    ArgsCut(sem, dag, P, sub, a, r, |sub[r]|);
  }

  lemma {:induction false} ArgsCut<D>(sem: Sem<D>, dag: Rows, P: seq<nat>, sub: Rows, a: seq<nat>, r: nat, k: nat)
    requires Fits(dag, P, sub, a) && CutRow(dag, P, sub, r) && k <= |sub[r]|
    ensures Args(sem, sub, Project(a, P), r, k) == Args(sem, dag, a, P[r], k)
    decreases r, k
  {
    if k > 0 {
      assert RowBelow(dag, P[r]) && RowBelow(sub, r);
      ArgsCut(sem, dag, P, sub, a, r, k - 1);
      assert CutEntry(P, r, dag[P[r]][k - 1], sub[r][k - 1]);
      if sub[r][k - 1] > 0 {
        EvalCut(sem, dag, P, sub, a, sub[r][k - 1] - 1);
      }
    }
  }

  /** The marks get_subgraph works with: the cone, or everything for the last vertex. */
  ghost function Marks(dag: Rows, start: nat): (m: seq<bool>)
    requires Topological(dag) && start < |dag|
    ensures |m| == |dag|
  {
    if start == |dag| - 1 then seq(|dag|, _ => true)
    else seq(|dag|, x requires 0 <= x < |dag| => x in Cone(dag, start))
  }

  /** The marks are the cone if and only if the start vertex is not the last one, or it
      depends on every vertex. */
  lemma MarksAreCone(dag: Rows, start: nat)
    requires Topological(dag) && start < |dag|
    ensures (forall x :: 0 <= x < |dag| ==> (Marks(dag, start)[x] <==> x in Cone(dag, start))) <==>
            start + 1 < |dag| || forall x :: 0 <= x < |dag| ==> x in Cone(dag, start)
  {
  }

  ghost predicate ClosedMarks(m: seq<bool>, dag: Rows) {
    && InRange(m, dag)
    && forall x, k :: 0 <= x < |dag| && m[x] && 0 <= k < |dag[x]| ==> ChildMarked(m, dag[x][k])
  }

  ghost predicate ChildMarked(m: seq<bool>, e: nat) {
    e == 0 || (e <= |m| && m[e - 1])
  }

  lemma MarksClosed(dag: Rows, start: nat)
    requires Topological(dag) && start < |dag|
    ensures ClosedMarks(Marks(dag, start), dag)
  {
    var m := Marks(dag, start);
    forall x, k | 0 <= x < |dag| && m[x] && 0 <= k < |dag[x]| ensures ChildMarked(m, dag[x][k]) {
      assert RowBelow(dag, x);
      if start < |dag| - 1 && dag[x][k] > 0 {
        ConeClosed(dag, start, x, k);
      }
    }
  }

  /** The start vertex is the last one marked. */
  lemma MarksLast(dag: Rows, start: nat)
    requires Topological(dag) && start < |dag|
    ensures var P := Positions(Marks(dag, start)); |P| > 0 && P[|P| - 1] == start
  {
    hide RankOf;
    var m, P := Marks(dag, start), Positions(Marks(dag, start));
    assert start in Cone(dag, start);
    PositionOf(m, start);
    PositionsRise(m);
    var x := P[|P| - 1];
    PositionAt(m, |P| - 1);
    if start < |dag| - 1 {
      ConeBelow(dag, start, x);
    }
  }

  /** What is left after all unmarked vertices are erased is the cut at the marks. */
  lemma ErasedIsCut(m: seq<bool>, dag: Rows, rows: Rows, grab: seq<bool>)
    requires ErasedUpTo(m, dag, |dag|, rows, grab) && ClosedMarks(m, dag)
    ensures IsCut(dag, Positions(m), rows)
  {
    hide Origin, Positions, Topological, RenumberRow, RankOf, Rises;
    PositionCount(m);
    PositionsRise(m);
    var P := Positions(m);
    forall r | 0 <= r < |P| ensures CutRow(dag, P, rows, r) {
      assert RowFrom(m, dag, |dag|, rows, grab, r);
      OriginFacts(m, |dag|, r);
      RowInRange(m, dag, P[r]);
      forall k | 0 <= k < |rows[r]| ensures CutEntry(P, r, dag[P[r]][k], rows[r][k]) {
        assert ChildMarked(m, dag[P[r]][k]);
        EntryCut(m, P, r, dag[P[r]][k]);
      }
    }
  }

  lemma EntryCut(m: seq<bool>, P: seq<nat>, r: nat, e: nat)
    requires P == Positions(m) && r < |P| && e <= P[r] && e <= |m| && ChildMarked(m, e)
    ensures CutEntry(P, r, e, Renumber(m, |m|, e))
  {
    hide Positions;
    if e > 0 {
      PositionOf(m, e - 1);
      PositionAt(m, r);
      RankMono(m, e - 1, P[r]);
    }
  }

  lemma AllMarkedCut(dag: Rows)
    requires Topological(dag) && |dag| > 0
    ensures IsCut(dag, Positions(Marks(dag, |dag| - 1)), dag)
  {
    var m := Marks(dag, |dag| - 1);
    AllPositions(m, |m|);
    assert m[..|m|] == m;
    forall r | 0 <= r < |dag| ensures CutRow(dag, Positions(m), dag, r) {
      assert RowBelow(dag, r);
    }
  }

  lemma {:induction false} AllPositions(m: seq<bool>, n: nat)
    requires n <= |m| && forall x :: 0 <= x < |m| ==> m[x]
    ensures |Positions(m[..n])| == n && forall x :: 0 <= x < n ==> Positions(m[..n])[x] == x
  {
    if n > 0 {
      AllPositions(m, n - 1);
      assert m[..n][..n - 1] == m[..n - 1];
    }
  }

  lemma NothingErased(m: seq<bool>, dag: Rows)
    requires InRange(m, dag)
    ensures ErasedUpTo(m, dag, 0, dag, m)
  {
    forall r | 0 <= r < |dag| ensures RowFrom(m, dag, 0, dag, m, r) {
      RowInRange(m, dag, r);
      assert Origin(m, 0, r) == r;
      assert RenumberRow(m, 0, dag[r]) == dag[r];
    }
  }

  lemma AtRow(m: seq<bool>, dag: Rows, o: nat, rows: Rows, grab: seq<bool>, i: nat)
    requires ErasedUpTo(m, dag, o, rows, grab) && i == RankOf(m, o)
    ensures i < |grab| <==> o < |dag|
    ensures i < |grab| ==> grab[i] == m[o]
  {
    hide Origin, Positions, RankOf, Topological, RenumberRow;
    if i < |grab| {
      assert RowFrom(m, dag, o, rows, grab, i);
      OriginFacts(m, o, i);
    }
  }

  /** Erases the unmarked rows one by one; i stays where it is after an erasure. */
  method EraseUnmarked(dag: Rows, m: seq<bool>) returns (rows: Rows)
    requires ClosedMarks(m, dag)
    ensures IsCut(dag, Positions(m), rows)
  {
    hide ErasedUpTo, RankOf, Topological, Dropped, Positions, ClosedMarks;
    var grab := m;
    rows := dag;
    var i: int := 0;
    ghost var o := 0;
    assert InRange(m, dag) by { OpenClosed(m, dag); }
    NothingErased(m, dag);
    RankStep(m, 0);
    while i < |grab|
      invariant 0 <= o <= |dag| == |m| && i == RankOf(m, o) && ErasedUpTo(m, dag, o, rows, grab) && |rows| == |grab|
      decreases |dag| - o
    {
      AtRow(m, dag, o, rows, grab, i);
      RankStep(m, o);
      ghost var rows0, grab0 := rows, grab;
      if !grab[i] {
        grab := grab[..i] + grab[i + 1..];
        rows := rows[..i] + rows[i + 1..];
        rows := DropIn(rows, i);
        EraseStep(m, dag, o, rows0, grab0, i, rows, grab);
        i := i - 1;
      } else {
        KeepStep(m, dag, o, rows, grab);
      }
      i := i + 1;
      o := o + 1;
    }
    AtRow(m, dag, o, rows, grab, i);
    ErasedIsCut(m, dag, rows, grab);
  }

  lemma OpenClosed(m: seq<bool>, dag: Rows)
    requires ClosedMarks(m, dag)
    ensures InRange(m, dag) && |m| == |dag|
  {
  }

  lemma RankStep(m: seq<bool>, o: nat)
    ensures RankOf(m, 0) == 0
    ensures o < |m| ==> RankOf(m, o + 1) == RankOf(m, o) + (if m[o] then 1 else 0)
  {
  }

  /** The cone of a vertex as a graph of its own, and the marks of its vertices. */
  method GetSubgraph(graph: Rows, start: nat) returns (sub: Rows, grabbed: seq<bool>)
    requires Topological(graph) && start < |graph|
    ensures grabbed == Marks(graph, start)
    ensures IsCut(graph, Positions(grabbed), sub)
    ensures |sub| == RankOf(grabbed, |graph|)
    ensures |sub| > 0 && |sub| == |Positions(grabbed)| && Positions(grabbed)[|sub| - 1] == start
  {
    hide IsCut, Positions, RankOf, Topological, ClosedMarks;
    ghost var m := Marks(graph, start);
    MarksLast(graph, start);
    PositionCount(m);
    if start == |graph| - 1 {
      AllMarkedCut(graph);
      sub, grabbed := graph, seq(|graph|, _ => true);
    } else {
      var toGrab := new bool[|graph|](_ => false);
      toGrab[start] := true;
      MarkChildren(graph, start, toGrab);
      grabbed := toGrab[..];
      assert forall x :: 0 <= x < |graph| ==>
          (x in Cone(graph, start) <==> x == start || x in ConeOf(graph, start, |graph[start]|));
      assert grabbed == m;
      MarksClosed(graph, start);
      sub := EraseUnmarked(graph, grabbed);
    }
    CutSize(graph, Positions(m), sub);
  }

  lemma CutSize(dag: Rows, P: seq<nat>, sub: Rows)
    requires IsCut(dag, P, sub)
    ensures |sub| == |P|
  {
  }

  /** Cutting keeps the meaning: the last vertex of the cut computes what the start
      vertex computes in the whole graph. */
  lemma SubgraphMeaning<D>(sem: Sem<D>, graph: Rows, start: nat, sub: Rows, a: seq<nat>)
    requires Topological(graph) && start < |graph| && |a| == |graph|
    requires IsCut(graph, Positions(Marks(graph, start)), sub)
    ensures Topological(sub) && |sub| > 0
    ensures forall r :: 0 <= r < |sub| ==> Positions(Marks(graph, start))[r] < |a|
    ensures EvalAt(sem, sub, Project(a, Positions(Marks(graph, start))), |sub| - 1) == EvalAt(sem, graph, a, start)
  {
    var P := Positions(Marks(graph, start));
    CutTopological(graph, P, sub);
    MarksLast(graph, start);
    forall r | 0 <= r < |P| ensures P[r] < |a| {
      PositionAt(Marks(graph, start), r);
    }
    EvalCut(sem, graph, P, sub, a, |P| - 1);
  }
}
