/** The assignments of symbols to the vertices of a DAG, which of them the duplicate test
    rejects, and what a jump passes over. */
module PDagSpace {
  import opened PDag
  import opened PDagLayout
  import opened PDagCone
  import opened MixedRadix

  datatype Symbol = Symbol(numChildren: nat, commutative: bool, idempotent: bool, isRoot: bool)

  /** A DAG, the symbols each vertex may take, and the recorded duplicates. */
  datatype Space = Space(symbols: seq<Symbol>, dag: Rows, possible: seq<seq<nat>>, duplicated: seq<seq<nat>>)

  /** The structure whose assignments are recorded. */
  const SUBGRAPH: Rows := [[0, 0], [0, 0], [0, 0], [0, 0], [3, 4], [1, 2], [5, 6]]

  /** The tests read the children of whatever is flagged, so leaves carry no flag. */
  predicate FlagsOk(symbols: seq<Symbol>) {
    forall k :: 0 <= k < |symbols| ==> FlagOk(symbols[k])
  }

  predicate FlagOk(y: Symbol) {
    y.commutative || y.idempotent ==> y.numChildren > 0
  }

  // --- The symbols a vertex may take ----------------------------------------

  /** The symbols before k with n children, ascending. */
  function IndexesOf(symbols: seq<Symbol>, n: nat, k: nat): (r: seq<nat>)
    requires k <= |symbols|
  {
    if k == 0 then [] else IndexesOf(symbols, n, k - 1) + (if symbols[k - 1].numChildren == n then [k - 1] else [])
  }

  predicate Ascending(r: seq<nat>) {
    forall i, j :: 0 <= i < j < |r| ==> r[i] < r[j]
  }

  lemma {:induction false} IndexesAscend(symbols: seq<Symbol>, n: nat, k: nat)
    requires k <= |symbols|
    ensures Ascending(IndexesOf(symbols, n, k))
    ensures forall i :: 0 <= i < |IndexesOf(symbols, n, k)| ==>
              var y := IndexesOf(symbols, n, k)[i]; y < k && symbols[y].numChildren == n
  {
    if k > 0 {
      IndexesAscend(symbols, n, k - 1);
    }
  }

  /** Every symbol with n children is listed. */
  lemma {:induction false} IndexesComplete(symbols: seq<Symbol>, n: nat, k: nat, y: nat)
    requires y < k <= |symbols| && symbols[y].numChildren == n
    ensures y in IndexesOf(symbols, n, k)
  {
    if y < k - 1 {
      IndexesComplete(symbols, n, k - 1, y);
    }
  }

  /** Those that may stand at the root. */
  function RootsOf(symbols: seq<Symbol>, r: seq<nat>): seq<nat> {
    if r == [] then []
    else
      RootsOf(symbols, r[..|r| - 1]) +
      (if r[|r| - 1] < |symbols| && symbols[r[|r| - 1]].isRoot then [r[|r| - 1]] else [])
  }

  lemma {:induction false} RootsMember(symbols: seq<Symbol>, r: seq<nat>, y: nat)
    ensures y in RootsOf(symbols, r) <==> y in r && y < |symbols| && symbols[y].isRoot
  {
    if r != [] {
      RootsMember(symbols, r[..|r| - 1], y);
      assert r == r[..|r| - 1] + [r[|r| - 1]];
    }
  }

  lemma {:induction false} RootsAscend(symbols: seq<Symbol>, r: seq<nat>)
    requires Ascending(r)
    ensures Ascending(RootsOf(symbols, r))
    ensures forall i :: 0 <= i < |RootsOf(symbols, r)| ==> RootsOf(symbols, r)[i] in r
  {
    if r != [] {
      var q := r[..|r| - 1];
      RootsAscend(symbols, q);
    }
  }

  /** The symbols vertex i may take. */
  function PossibleAt(symbols: seq<Symbol>, dag: Rows, i: nat): seq<nat>
    requires i < |dag|
  {
    var all := IndexesOf(symbols, Children(dag[i]), |symbols|);
    if i == |dag| - 1 then RootsOf(symbols, all) else all
  }

  function PossibleOf(symbols: seq<Symbol>, dag: Rows): (r: seq<seq<nat>>)
    ensures |r| == |dag| && forall i :: 0 <= i < |r| ==> r[i] == PossibleAt(symbols, dag, i)
  {
    seq(|dag|, i requires 0 <= i < |dag| => PossibleAt(symbols, dag, i))
  }

  /** Vertex i may take exactly the symbols with as many children as it has, and at the
      root only those allowed there; they are listed in ascending order. */
  lemma PossibleExactly(symbols: seq<Symbol>, dag: Rows, i: nat)
    requires i < |dag|
    ensures Ascending(PossibleOf(symbols, dag)[i])
    ensures forall y: nat :: y in PossibleOf(symbols, dag)[i] <==>
              && y < |symbols| && symbols[y].numChildren == |set k | 0 <= k < |dag[i]| && dag[i][k] > 0|
              && (i == |dag| - 1 ==> symbols[y].isRoot)
  {
    var n := Children(dag[i]);
    var all := IndexesOf(symbols, n, |symbols|);
    ConnectedCount(dag[i], |dag[i]|);
    IndexesAscend(symbols, n, |symbols|);
    RootsAscend(symbols, all);
    forall y: nat ensures y in all <==> y < |symbols| && symbols[y].numChildren == n {
      if y < |symbols| && symbols[y].numChildren == n {
        IndexesComplete(symbols, n, |symbols|, y);
      }
    }
    forall y: nat ensures y in RootsOf(symbols, all) <==> y in all && y < |symbols| && symbols[y].isRoot {
      RootsMember(symbols, all, y);
    }
  }

  /** What an input may take. */
  function LeafSymbols(symbols: seq<Symbol>): seq<nat> {
    IndexesOf(symbols, 0, |symbols|)
  }

  /** What a vertex may take has the right number of children, and the list ascends; all
      inputs may take the same. */
  ghost predicate Fitting(s: Space, i: nat) {
    && i < |s.dag| && i < |s.possible| && Ascending(s.possible[i])
    && (IsLeafNode(s.dag[i]) && i + 1 < |s.dag| ==> s.possible[i] == LeafSymbols(s.symbols))
    && forall c :: 0 <= c < |s.possible[i]| ==> FittingSymbol(s, i, s.possible[i][c])
  }

  ghost predicate FittingSymbol(s: Space, i: nat, y: nat) {
    i < |s.dag| && y < |s.symbols| && s.symbols[y].numChildren == if IsLeafNode(s.dag[i]) then 0 else 2
  }

  ghost predicate Valid(s: Space) {
    && Laid(s.dag) && Apart(s.dag) && |s.possible| == |s.dag| && FlagsOk(s.symbols)
    && (forall i :: 0 <= i < |s.dag| ==> Fitting(s, i))
    && (forall c :: 0 <= c < |s.duplicated| ==> |s.duplicated[c]| == |SUBGRAPH|)
  }

  lemma TwoChildren(row: seq<nat>)
    requires |row| == 2
    ensures Children(row) == (if row[0] > 0 then 1 else 0) + (if row[1] > 0 then 1 else 0)
  {
    assert Connected(row, 1) == if row[0] > 0 then 1 else 0;
  }

  lemma PossibleFits(s: Space, i: nat)
    requires s.possible == PossibleOf(s.symbols, s.dag) && i < |s.dag| && FullRow(s.dag, i)
    ensures Fitting(s, i)
  {
    var n := Children(s.dag[i]);
    TwoChildren(s.dag[i]);
    assert n == if IsLeafNode(s.dag[i]) then 0 else 2;
    IndexesAscend(s.symbols, n, |s.symbols|);
    RootsAscend(s.symbols, IndexesOf(s.symbols, n, |s.symbols|));
  }

  // --- Assignments ----------------------------------------------------------

  function Radix(s: Space): (r: seq<nat>)
    ensures |r| == |s.possible| && forall i :: 0 <= i < |r| ==> r[i] == |s.possible[i]|
  {
    seq(|s.possible|, i requires 0 <= i < |s.possible| => |s.possible[i]|)
  }

  /** The symbol assignment d gives to vertex i. */
  function SymAt(s: Space, d: seq<nat>, i: nat): nat {
    if i < |d| && i < |s.possible| && d[i] < |s.possible[i]| then s.possible[i][d[i]] else 0
  }

  function Syms(s: Space, d: seq<nat>): (r: seq<nat>)
    ensures |r| == |d| && forall i :: 0 <= i < |d| ==> r[i] == SymAt(s, d, i)
  {
    seq(|d|, i requires 0 <= i < |d| => SymAt(s, d, i))
  }

  predicate LeafAt(s: Space, d: seq<nat>, i: nat) {
    SymAt(s, d, i) < |s.symbols| && s.symbols[SymAt(s, d, i)].numChildren == 0
  }

  /** Two leaf symbols below symbol y: in the wrong order for a commutative one or the
      same for an idempotent one. */
  predicate BadInputs(y: Symbol, left: nat, right: nat) {
    (y.commutative && left > right) || (y.idempotent && left == right)
  }

  /** The wrong order for any flagged symbol, or the same for an idempotent one. */
  predicate CoveredInputs(y: Symbol, left: nat, right: nat) {
    ((y.commutative || y.idempotent) && left > right) || (y.idempotent && left == right)
  }

  /** Gate g has two leaf symbols below it. */
  predicate OverLeaves(s: Space, d: seq<nat>, g: nat) {
    && g < |s.dag| && |s.dag[g]| == 2 && s.dag[g][0] > 0 && s.dag[g][1] > 0 && SymAt(s, d, g) < |s.symbols|
    && LeafAt(s, d, s.dag[g][0] - 1) && LeafAt(s, d, s.dag[g][1] - 1)
  }

  /** The duplicate test rejects the inputs of gate g. */
  predicate BadGate(s: Space, d: seq<nat>, g: nat) {
    && OverLeaves(s, d, g)
    && BadInputs(s.symbols[SymAt(s, d, g)], SymAt(s, d, s.dag[g][0] - 1), SymAt(s, d, s.dag[g][1] - 1))
  }

  /** Gate g has such inputs that a jump made for it passes over the assignment. */
  predicate Covers(s: Space, d: seq<nat>, g: nat) {
    && OverLeaves(s, d, g)
    && CoveredInputs(s.symbols[SymAt(s, d, g)], SymAt(s, d, s.dag[g][0] - 1), SymAt(s, d, s.dag[g][1] - 1))
  }

  /** The vertices of the cone of vertex j, for j not the root. */
  ghost function ConeList(dag: Rows, j: nat): seq<nat> {
    if Topological(dag) && j + 1 < |dag| then Positions(Marks(dag, j)) else []
  }

  /** Vertex j, not the root, has the recorded structure as its cone. */
  ghost predicate ConeAt(dag: Rows, j: nat) {
    Topological(dag) && j + 1 < |dag| && IsCut(dag, ConeList(dag, j), SUBGRAPH)
  }

  predicate SameOn(s: Space, d: seq<nat>, P: seq<nat>, w: seq<nat>) {
    |P| <= |w| && forall i :: 0 <= i < |P| ==> SymAt(s, d, P[i]) == w[i]
  }

  /** On the cone of j the assignment is recorded duplicate c. */
  ghost predicate BadCone(s: Space, d: seq<nat>, j: nat, c: nat) {
    ConeAt(s.dag, j) && c < |s.duplicated| && SameOn(s, d, ConeList(s.dag, j), s.duplicated[c])
  }

  ghost predicate OnRecord(s: Space, d: seq<nat>) {
    exists j: nat, c: nat :: BadCone(s, d, j, c)
  }

  /** What the duplicate test rejects. */
  ghost predicate Bad(s: Space, d: seq<nat>) {
    (exists g: nat :: BadGate(s, d, g)) || OnRecord(s, d)
  }

  /** What is never handed on. */
  ghost predicate Covered(s: Space, d: seq<nat>) {
    (exists g: nat :: Covers(s, d, g)) || OnRecord(s, d)
  }

  ghost function CoveredOf(s: Space): (f: seq<nat> -> bool)
    ensures forall d :: f(d) == Covered(s, d)
  {
    d => Covered(s, d)
  }

  ghost function BadOf(s: Space): (f: seq<nat> -> bool)
    ensures forall d :: f(d) == Bad(s, d)
  {
    d => Bad(s, d)
  }

  // --- Jumps ----------------------------------------------------------------

  /** Every assignment from d up to the one a jump at p goes to is covered. */
  ghost predicate SkipsOnlyCovered(s: Space, d: seq<nat>, p: nat) {
    && p <= |s.possible| && |d| == |s.possible| && Total(Radix(s)[..p]) > 0
    && forall x :: IsDigits(Radix(s), x) && Within(s, d, p, x) ==> Covered(s, x)
  }

  ghost predicate Within(s: Space, d: seq<nat>, p: nat, x: seq<nat>)
    requires p <= |s.possible| && |d| == |s.possible| == |x| && Total(Radix(s)[..p]) > 0
  {
    Val(Radix(s), d) <= Val(Radix(s), x) < (Val(Radix(s), d) / Total(Radix(s)[..p]) + 1) * Total(Radix(s)[..p])
  }

  lemma SameSymbol(s: Space, d: seq<nat>, x: seq<nat>, p: nat, i: nat)
    requires IsDigits(Radix(s), d) && IsDigits(Radix(s), x) && p <= |d| && x[p..] == d[p..] && i >= p
    ensures SymAt(s, x, i) == SymAt(s, d, i)
  {
    if i < |d| {
      assert x[i] == x[p..][i - p] && d[i] == d[p..][i - p];
    }
  }

  /** A larger digit below means a larger symbol. */
  lemma LargerSymbol(s: Space, d: seq<nat>, x: seq<nat>, i: nat)
    requires IsDigits(Radix(s), d) && IsDigits(Radix(s), x) && i < |d| && d[i] <= x[i] && Fitting(s, i)
    ensures SymAt(s, d, i) <= SymAt(s, x, i)
    ensures FittingSymbol(s, i, SymAt(s, d, i)) && FittingSymbol(s, i, SymAt(s, x, i))
  {
  }

  lemma BadIsCovered(s: Space, d: seq<nat>)
    ensures forall g: nat :: BadGate(s, d, g) ==> Covers(s, d, g)
    ensures Bad(s, d) ==> Covered(s, d)
  {
    hide OnRecord;
  }

  lemma ValidAt(s: Space, i: nat)
    requires Valid(s) && i < |s.dag|
    ensures LaidRow(s.dag, i) && Fitting(s, i) && |s.possible| == |s.dag|
    ensures FullRow(s.dag, i)
  {
  }

  /** The children of a gate with two leaf symbols are neighbours. */
  lemma LeafNeighbours(s: Space, d: seq<nat>, g: nat)
    requires Valid(s) && IsDigits(Radix(s), d) && OverLeaves(s, d, g)
    ensures g < |s.dag| == |s.possible| && |s.dag[g]| == 2
    ensures 1 <= s.dag[g][0] <= g && s.dag[g][1] == s.dag[g][0] + 1 && s.dag[g][1] <= g
  {
    hide Valid, Fitting;
    ValidAt(s, g);
    var i, j := s.dag[g][0] - 1, s.dag[g][1] - 1;
    ValidAt(s, i);
    ValidAt(s, j);
    LargerSymbol(s, d, d, i);
    LargerSymbol(s, d, d, j);
  }

  /** A jump at the upper child of a duplicate gate passes over assignments that the gate
      covers: only the lower input can have grown. */
  lemma GateJump(s: Space, d: seq<nat>, g: nat)
    requires Valid(s) && Radices(Radix(s)) && IsDigits(Radix(s), d) && BadGate(s, d, g)
    ensures 1 <= s.dag[g][0] <= g && s.dag[g][1] == s.dag[g][0] + 1 && s.dag[g][1] <= g
    ensures s.dag[g][1] - 1 < |s.possible| && SkipsOnlyCovered(s, d, s.dag[g][1] - 1)
    ensures forall x :: IsDigits(Radix(s), x) && Within(s, d, s.dag[g][1] - 1, x) ==> Covers(s, x, g)
  {
    hide Valid, Val, Total, Within, Covered, Covers;
    LeafNeighbours(s, d, g);
    ValidAt(s, g);
    var p := s.dag[g][1] - 1;
    TotalPositive(Radix(s)[..p]);
    forall x | IsDigits(Radix(s), x) && Within(s, d, p, x) ensures Covers(s, x, g) && Covered(s, x) {
      GateCovers(s, d, g, x);
      CoveredByGate(s, x, g);
    }
  }

  lemma CoveredByGate(s: Space, x: seq<nat>, g: nat)
    requires Covers(s, x, g)
    ensures Covered(s, x)
  {
  }

  lemma BadByGate(s: Space, x: seq<nat>, g: nat)
    requires BadGate(s, x, g)
    ensures Bad(s, x)
  {
  }

  lemma GateCovers(s: Space, d: seq<nat>, g: nat, x: seq<nat>)
    requires Valid(s) && Radices(Radix(s)) && IsDigits(Radix(s), d) && IsDigits(Radix(s), x) && BadGate(s, d, g)
    requires 1 <= s.dag[g][0] <= g && s.dag[g][1] == s.dag[g][0] + 1 && s.dag[g][1] <= g < |s.possible|
    requires Total(Radix(s)[..s.dag[g][0]]) > 0 && Within(s, d, s.dag[g][0], x)
    ensures Covers(s, x, g)
  {
    hide Valid, Val, Total, LaidRow, FullRow, Fitting;
    var p := s.dag[g][0];
    Between(Radix(s), d, p, x);
    SameSymbol(s, d, x, p, p);
    SameSymbol(s, d, x, p, g);
    ValidAt(s, p - 1);
    LargerSymbol(s, d, x, p - 1);
  }

  /** The gate stays a duplicate up to where the jump goes, since only the lower input can
      have grown: always if its symbol is commutative, or if that input cannot grow. */
  lemma GateStays(s: Space, d: seq<nat>, g: nat, x: seq<nat>)
    requires Valid(s) && Radices(Radix(s)) && IsDigits(Radix(s), d) && IsDigits(Radix(s), x) && BadGate(s, d, g)
    requires 1 <= s.dag[g][0] <= g && s.dag[g][1] == s.dag[g][0] + 1 && s.dag[g][1] <= g < |s.possible|
    requires Total(Radix(s)[..s.dag[g][0]]) > 0 && Within(s, d, s.dag[g][0], x)
    requires s.symbols[SymAt(s, d, g)].commutative || d[s.dag[g][0] - 1] + 1 == |s.possible[s.dag[g][0] - 1]|
    ensures BadGate(s, x, g)
  {
    hide Valid, Val, Total, LaidRow, FullRow, Fitting;
    var p := s.dag[g][0];
    Between(Radix(s), d, p, x);
    SameSymbol(s, d, x, p, p);
    SameSymbol(s, d, x, p, g);
    ValidAt(s, p - 1);
    LargerSymbol(s, d, x, p - 1);
  }

  /** This is exactly when it stays one. With an idempotent symbol that does not commute
      and a lower input that can grow, the jump passes over an assignment in which the gate
      is no duplicate. */
  lemma GateJumpExactly(s: Space, d: seq<nat>, g: nat)
    requires Valid(s) && Radices(Radix(s)) && IsDigits(Radix(s), d) && BadGate(s, d, g)
    ensures 1 <= s.dag[g][0] <= g && s.dag[g][1] == s.dag[g][0] + 1 && s.dag[g][1] <= g < |s.possible|
    ensures Total(Radix(s)[..s.dag[g][0]]) > 0
    ensures (forall x :: IsDigits(Radix(s), x) && Within(s, d, s.dag[g][0], x) ==> BadGate(s, x, g)) <==>
            s.symbols[SymAt(s, d, g)].commutative || d[s.dag[g][0] - 1] + 1 == |s.possible[s.dag[g][0] - 1]|
  {
    assert OverLeaves(s, d, g);
    hide Valid, Val, Total, BadGate, Within;
    LeafNeighbours(s, d, g);
    var p := s.dag[g][0];
    TotalPositive(Radix(s)[..p]);
    if GrowsAt(s, d, g) {
      var x := d[p - 1 := d[p - 1] + 1];
      GrownWithin(s, d, p);
      GrownFine(s, d, g);
      assert IsDigits(Radix(s), x) && Within(s, d, p, x) && !BadGate(s, x, g);
    } else {
      GrowsOrNot(s, d, g);
      forall x | IsDigits(Radix(s), x) && Within(s, d, p, x) ensures BadGate(s, x, g) {
        GateStays(s, d, g, x);
      }
    }
  }

  ghost predicate GrowsAt(s: Space, d: seq<nat>, g: nat) {
    && BadGate(s, d, g) && s.dag[g][0] <= |d| == |s.possible|
    && !s.symbols[SymAt(s, d, g)].commutative && d[s.dag[g][0] - 1] + 1 != |s.possible[s.dag[g][0] - 1]|
  }

  lemma GrowsOrNot(s: Space, d: seq<nat>, g: nat)
    requires BadGate(s, d, g) && s.dag[g][0] <= |d| == |s.possible| && !GrowsAt(s, d, g)
    ensures SymAt(s, d, g) < |s.symbols|
    ensures s.symbols[SymAt(s, d, g)].commutative || d[s.dag[g][0] - 1] + 1 == |s.possible[s.dag[g][0] - 1]|
  {
  }

  /** One more at the digit below p comes before the jump's goal. */
  lemma GrownWithin(s: Space, d: seq<nat>, p: nat)
    requires Radices(Radix(s)) && IsDigits(Radix(s), d) && 0 < p <= |d| && d[p - 1] + 1 < |s.possible[p - 1]|
    requires Total(Radix(s)[..p]) > 0
    ensures Within(s, d, p, d[p - 1 := d[p - 1] + 1])
  {
    hide Val, Total;
    var r, x := Radix(s), d[p - 1 := d[p - 1] + 1];
    SplitVal(r, d, p);
    SplitVal(r, x, p);
    assert x[p..] == d[p..];
    ValBound(r[..p], d[..p]);
    ValBound(r[..p], x[..p]);
    var w, h := Total(r[..p]), Val(r[p..], d[p..]);
    DivModOf(w, h, Val(r[..p], d[..p]));
    Succ(w, h);
    GrownTop(r[..p], d[..p]);
    assert x[..p] == d[..p][p - 1 := d[p - 1] + 1];
  }

  lemma GrownTop(r: seq<nat>, d: seq<nat>)
    requires |d| == |r| > 0
    ensures Val(r, d) <= Val(r, d[|d| - 1 := d[|d| - 1] + 1])
  {
    hide Val, Total;
    var q := |d| - 1;
    var x := d[q := d[q] + 1];
    SplitVal(r, d, q);
    SplitVal(r, x, q);
    assert x[..q] == d[..q] && r[q..] == [r[q]] && d[q..] == [d[q]] && x[q..] == [d[q] + 1];
    SingleVal(r[q], d[q]);
    SingleVal(r[q], d[q] + 1);
    Succ(Total(r[..q]), d[q]);
  }

  lemma GrownFine(s: Space, d: seq<nat>, g: nat)
    requires Valid(s) && IsDigits(Radix(s), d) && GrowsAt(s, d, g)
    requires 1 <= s.dag[g][0] <= g && s.dag[g][1] == s.dag[g][0] + 1 && s.dag[g][1] <= g
    ensures !BadGate(s, d[s.dag[g][0] - 1 := d[s.dag[g][0] - 1] + 1], g)
  {
    hide Valid;
    ValidAt(s, g);
    ValidAt(s, s.dag[g][0] - 1);
  }

  lemma FlagAt(s: Space, y: nat)
    requires Valid(s)
    ensures y < |s.symbols| ==> FlagOk(s.symbols[y])
  {
  }

  /** A jump at the lowest vertex of a matched cone passes over covered assignments: they
      agree with d on the whole cone. */
  lemma ConeJump(s: Space, d: seq<nat>, j: nat, c: nat)
    requires Valid(s) && Radices(Radix(s)) && IsDigits(Radix(s), d) && BadCone(s, d, j, c)
    ensures var P := ConeList(s.dag, j);
            |P| == |SUBGRAPH| && P[0] < |s.possible| && SkipsOnlyCovered(s, d, P[0])
  {
    hide Valid, Val, Total, Within, Covered, IsCut, Positions, Topological, ConeAt;
    assert |s.possible| == |s.dag| by { ValidLength(s); }
    ConeSize(s.dag, j);
    var P := ConeList(s.dag, j);
    PositionAt(Marks(s.dag, j), 0);
    TotalPositive(Radix(s)[..P[0]]);
    forall x | IsDigits(Radix(s), x) && Within(s, d, P[0], x) ensures Covered(s, x) {
      ConeStays(s, d, j, c, x);
      OnRecordByCone(s, x, j, c);
    }
  }

  lemma ValidLength(s: Space)
    requires Valid(s)
    ensures |s.possible| == |s.dag|
  {
  }

  lemma ConeSize(dag: Rows, j: nat)
    requires ConeAt(dag, j)
    ensures Topological(dag) && j + 1 < |dag| && |ConeList(dag, j)| == |SUBGRAPH|
  {
  }

  lemma OnRecordByCone(s: Space, x: seq<nat>, j: nat, c: nat)
    requires BadCone(s, x, j, c)
    ensures Bad(s, x) && Covered(s, x)
  {
  }

  lemma ConeStays(s: Space, d: seq<nat>, j: nat, c: nat, x: seq<nat>)
    requires Radices(Radix(s)) && IsDigits(Radix(s), d) && IsDigits(Radix(s), x) && BadCone(s, d, j, c)
    requires var P := ConeList(s.dag, j);
             |P| > 0 && P[0] < |s.possible| && Total(Radix(s)[..P[0]]) > 0 && Within(s, d, P[0], x)
    ensures BadCone(s, x, j, c)
  {
    hide Val, Total, IsCut, Positions, Topological;
    var P := ConeList(s.dag, j);
    PositionsRise(Marks(s.dag, j));
    Between(Radix(s), d, P[0], x);
    forall i | 0 <= i < |P| ensures SymAt(s, x, P[i]) == s.duplicated[c][i] {
      assert P[0] <= P[i];
      SameSymbol(s, d, x, P[0], P[i]);
    }
  }

  /** From an assignment that is a duplicate to the one after a jump, or to the end,
      nothing is lost. */
  lemma JumpKeeps(s: Space, d: seq<nat>, p: nat, e: seq<nat>, more: bool)
    requires Radices(Radix(s)) && IsDigits(Radix(s), d) && SkipsOnlyCovered(s, d, p) && Bumped(Radix(s), d, p, e, more)
    ensures more ==> Val(Radix(s), d) < Val(Radix(s), e) < Total(Radix(s))
    ensures Keep(CoveredOf(s), From(Radix(s), Val(Radix(s), d))) ==
            if more then Keep(CoveredOf(s), From(Radix(s), Val(Radix(s), e))) else []
  {
    hide Val, Total, Covered, Keep, From, Bumped, Within;
    var r := Radix(s);
    BumpedValue(r, d, p, e, more);
    var v, u := Val(r, d), (Val(r, d) / Total(r[..p]) + 1) * Total(r[..p]);
    forall y | v <= y < u ensures CoveredOf(s)(DigitsOf(r, y)) {
      ValOfDigits(r, y);
      WithinOf(s, d, p, DigitsOf(r, y));
    }
    KeepSkip(r, CoveredOf(s), v, u);
    if !more {
      FromEnd(r, u);
      KeepNone(CoveredOf(s));
    }
  }

  lemma KeepNone(bad: seq<nat> -> bool)
    ensures Keep(bad, []) == []
  {
  }

  lemma WithinOf(s: Space, d: seq<nat>, p: nat, x: seq<nat>)
    requires p <= |s.possible| && |d| == |s.possible| == |x| && Total(Radix(s)[..p]) > 0
    requires Val(Radix(s), d) <= Val(Radix(s), x) < (Val(Radix(s), d) / Total(Radix(s)[..p]) + 1) * Total(Radix(s)[..p])
    ensures Within(s, d, p, x)
  {
  }

  /** An assignment that is handed on is followed by the next one. */
  lemma StepKeeps(s: Space, d: seq<nat>, e: seq<nat>, more: bool)
    requires Radices(Radix(s)) && IsDigits(Radix(s), d) && !Covered(s, d) && Bumped(Radix(s), d, 0, e, more)
    ensures more ==> Val(Radix(s), d) < Val(Radix(s), e) < Total(Radix(s))
    ensures Keep(CoveredOf(s), From(Radix(s), Val(Radix(s), d))) ==
            [d] + if more then Keep(CoveredOf(s), From(Radix(s), Val(Radix(s), e))) else []
  {
    hide Val, Total, Covered, Keep, From, Bumped;
    var r := Radix(s);
    BumpedValue(r, d, 0, e, more);
    assert Total(r[..0]) == 1 by { TotalNone(r); }
    ValBound(r, d);
    DigitsOfVal(r, d);
    KeepHead(r, CoveredOf(s), Val(r, d));
    if !more {
      FromEnd(r, Val(r, d) + 1);
      KeepNone(CoveredOf(s));
    }
  }

  lemma TotalNone(r: seq<nat>)
    ensures Total(r[..0]) == 1
  {
  }

  // --- The tests in terms of flags ------------------------------------------

  /** Below gate g, if both its children are inputs, the input symbols ascend: strictly
      where the gate's symbol is idempotent, weakly where it is commutative. */
  predicate RisesAt(s: Space, d: seq<nat>, g: nat) {
    g < |s.dag| && LeafPair(s.dag, s.dag[g]) && SymAt(s, d, g) < |s.symbols| ==>
      var y := s.symbols[SymAt(s, d, g)];
      var left, right := SymAt(s, d, s.dag[g][0] - 1), SymAt(s, d, s.dag[g][1] - 1);
      (y.idempotent ==> left < right) && (y.commutative ==> left <= right)
  }

  /** They differ where it is idempotent, and ascend weakly where it is commutative. */
  predicate PassesAt(s: Space, d: seq<nat>, g: nat) {
    g < |s.dag| && LeafPair(s.dag, s.dag[g]) && SymAt(s, d, g) < |s.symbols| ==>
      var y := s.symbols[SymAt(s, d, g)];
      var left, right := SymAt(s, d, s.dag[g][0] - 1), SymAt(s, d, s.dag[g][1] - 1);
      (y.idempotent ==> left != right) && (y.commutative ==> left <= right)
  }

  /** Without recorded duplicates: what the duplicate test accepts, and what is handed
      on. */
  lemma TestsExactly(s: Space, d: seq<nat>)
    requires Valid(s) && IsDigits(Radix(s), d) && s.duplicated == []
    ensures !Bad(s, d) <==> forall g: nat :: PassesAt(s, d, g)
    ensures !Covered(s, d) <==> forall g: nat :: RisesAt(s, d, g)
  {
    hide Covered, Bad, Covers, BadGate, Valid, RisesAt, PassesAt;
    forall g: nat
      ensures Covers(s, d, g) <==> !RisesAt(s, d, g)
      ensures BadGate(s, d, g) <==> !PassesAt(s, d, g)
    {
      GateTests(s, d, g);
    }
    NoRecords(s, d);
  }

  lemma NoRecords(s: Space, d: seq<nat>)
    requires s.duplicated == []
    ensures Covered(s, d) <==> exists g: nat :: Covers(s, d, g)
    ensures Bad(s, d) <==> exists g: nat :: BadGate(s, d, g)
  {
    hide ConeAt, Covers, BadGate;
  }

  lemma GateTests(s: Space, d: seq<nat>, g: nat)
    requires Valid(s) && IsDigits(Radix(s), d)
    ensures Covers(s, d, g) <==> !RisesAt(s, d, g)
    ensures BadGate(s, d, g) <==> !PassesAt(s, d, g)
  {
    hide Valid, Fitting;
    if g < |s.dag| {
      ValidAt(s, g);
      LargerSymbol(s, d, d, g);
      if !IsLeafNode(s.dag[g]) {
        var i, j := s.dag[g][0] - 1, s.dag[g][1] - 1;
        ValidAt(s, i);
        ValidAt(s, j);
        LargerSymbol(s, d, d, i);
        LargerSymbol(s, d, d, j);
      }
    }
  }

  /** With every gate symbol commutative and idempotent and no recorded duplicates, what
      is handed on has strictly increasing leaf symbols below every gate with two. */
  lemma StrictlyIncreasing(s: Space, d: seq<nat>)
    requires Valid(s) && IsDigits(Radix(s), d) && s.duplicated == []
    requires forall k :: 0 <= k < |s.symbols| && s.symbols[k].numChildren > 0 ==>
               s.symbols[k].commutative && s.symbols[k].idempotent
    ensures !Covered(s, d) <==>
            forall g :: 0 <= g < |s.dag| && LeafPair(s.dag, s.dag[g]) ==>
              SymAt(s, d, s.dag[g][0] - 1) < SymAt(s, d, s.dag[g][1] - 1)
  {
    hide Covered, Valid, Fitting, Bad, PassesAt;
    TestsExactly(s, d);
    forall g: nat | g < |s.dag| && LeafPair(s.dag, s.dag[g])
      ensures SymAt(s, d, g) < |s.symbols| && s.symbols[SymAt(s, d, g)].numChildren > 0
    {
      ValidAt(s, g);
      LargerSymbol(s, d, d, g);
    }
    forall g: nat
      ensures RisesAt(s, d, g) <==> (g < |s.dag| && LeafPair(s.dag, s.dag[g]) ==>
                SymAt(s, d, s.dag[g][0] - 1) < SymAt(s, d, s.dag[g][1] - 1))
    {
    }
  }
}
