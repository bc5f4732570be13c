/** The enumeration over DAGs: laying a DAG out, the odometer over assignments, the
    duplicate test with its jumps, and the loop that hands assignments on. */
module PDagRun {
  import opened PDag
  import PDagInsert
  import opened PDagLayout
  import opened PDagCone
  import opened Numbers
  import opened MixedRadix
  import opened PDagSpace
  import opened PDagVisit
  import opened PDagOffer

  datatype Task = Nothing | NextDag | DoNotIncrease

  /** The vertices of the cones that have the recorded structure, for the vertices from
      n on that are not the root, the last one first. */
  ghost function ConeLists(dag: Rows, n: nat): seq<seq<nat>>
    decreases |dag| - n
  {
    if n + 1 >= |dag| then []
    else ConeLists(dag, n + 1) + (if ConeAt(dag, n) then [ConeList(dag, n)] else [])
  }

  ghost predicate ListsFrom(dag: Rows, n: nat, positions: seq<seq<nat>>) {
    positions == ConeLists(dag, n)
  }

  predicate IsUnique(inputs: seq<nat>) {
    forall i, j :: 0 <= i < j < |inputs| ==> inputs[i] != inputs[j]
  }

  /** The second of two positions in ascending order. */
  function Upper(children: seq<nat>): nat
    requires |children| == 2
  {
    if children[0] <= children[1] then children[1] else children[0]
  }

  /** The leaf symbols among the children of a vertex. */
  function InputsOf(s: Space, d: seq<nat>, node: seq<nat>, k: nat): seq<nat>
    requires k <= |node|
  {
    if k == 0 then []
    else
      InputsOf(s, d, node, k - 1) +
      (if node[k - 1] > 0 && LeafAt(s, d, node[k - 1] - 1) then [SymAt(s, d, node[k - 1] - 1)] else [])
  }

  lemma BadByInputs(s: Space, d: seq<nat>, g: nat)
    requires g < |s.dag| && SymAt(s, d, g) < |s.symbols| && |s.dag[g]| == 2 && s.dag[g][0] > 0 && s.dag[g][1] > 0
    ensures BadGate(s, d, g) <==>
            (s.symbols[SymAt(s, d, g)].commutative && !InOrder(InputsOf(s, d, s.dag[g], 2))) ||
            (s.symbols[SymAt(s, d, g)].idempotent && !IsUnique(InputsOf(s, d, s.dag[g], 2)))
  {
    var node := s.dag[g];
    var i, j := node[0] - 1, node[1] - 1;
    var w := InputsOf(s, d, node, 2);
    assert InputsOf(s, d, node, 1) == if LeafAt(s, d, i) then [SymAt(s, d, i)] else [];
    if LeafAt(s, d, i) && LeafAt(s, d, j) {
      assert w == [SymAt(s, d, i), SymAt(s, d, j)];
      assert InOrder(w) <==> w[0] <= w[1];
      assert IsUnique(w) <==> w[0] != w[1];
    } else {
      assert |w| <= 1;
    }
  }

  // --- What the loops look at -----------------------------------------------

  lemma NoneListed(dag: Rows)
    requires |dag| > 0
    ensures ListsFrom(dag, |dag| - 1, [])
  {
    hide IsCut, Positions, Topological;
  }

  lemma FoundCone(dag: Rows, j: nat, sub: Rows)
    requires Topological(dag) && j + 1 < |dag| && IsCut(dag, Positions(Marks(dag, j)), sub) && sub == SUBGRAPH
    ensures ConeAt(dag, j)
  {
    hide IsCut, Positions, Topological;
  }

  lemma ListMore(dag: Rows, j: nat, positions: seq<seq<nat>>)
    requires ListsFrom(dag, j + 1, positions) && ConeAt(dag, j)
    ensures ListsFrom(dag, j, positions + [ConeList(dag, j)])
  {
    hide IsCut, ConeList;
  }

  lemma ListSame(dag: Rows, j: nat, sub: Rows, positions: seq<seq<nat>>)
    requires ListsFrom(dag, j + 1, positions) && Topological(dag) && j + 1 < |dag|
    requires IsCut(dag, Positions(Marks(dag, j)), sub) && sub != SUBGRAPH
    ensures ListsFrom(dag, j, positions)
  {
    hide IsCut, Positions;
    if ConeAt(dag, j) {
      CutUnique(dag, Positions(Marks(dag, j)), sub, SUBGRAPH);
    }
  }

  /** Entry a of the list is a cone, and the entries before it are those of the vertices
      after its own. */
  lemma {:induction false} EntryOf(dag: Rows, n: nat, a: nat) returns (j: nat)
    requires a < |ConeLists(dag, n)|
    ensures n <= j && ConeAt(dag, j) && ConeLists(dag, n)[a] == ConeList(dag, j)
    ensures ConeLists(dag, j + 1) == ConeLists(dag, n)[..a]
    decreases |dag| - n
  {
    hide ConeAt, ConeList;
    var above := ConeLists(dag, n + 1);
    if a < |above| {
      j := EntryOf(dag, n + 1, a);
      assert ConeLists(dag, n)[..a] == above[..a];
    } else {
      j := n;
      assert ConeLists(dag, n)[..a] == above;
    }
  }

  /** All of them are listed. */
  lemma {:induction false} EntryFor(dag: Rows, n: nat, j: nat) returns (b: nat)
    requires n <= j && ConeAt(dag, j)
    ensures b < |ConeLists(dag, n)| && ConeLists(dag, n)[b] == ConeList(dag, j)
    decreases |dag| - n
  {
    hide ConeAt, ConeList;
    InMiddle(dag, j);
    if n < j {
      b := EntryFor(dag, n + 1, j);
    } else {
      b := |ConeLists(dag, n + 1)|;
    }
  }

  lemma InMiddle(dag: Rows, j: nat)
    requires ConeAt(dag, j)
    ensures j + 1 < |dag|
  {
  }

  lemma SymbolHere(s: Space, d: seq<nat>, i: nat)
    requires Valid(s) && IsDigits(Radix(s), d) && i < |s.dag|
    ensures |s.possible| == |s.dag| == |d| && d[i] < |s.possible[i]|
    ensures SymAt(s, d, i) == s.possible[i][d[i]] && FittingSymbol(s, i, SymAt(s, d, i))
    ensures LaidRow(s.dag, i)
  {
    ValidAt(s, i);
  }

  /** Entry a of the list is a cone, all of it lies inside the assignment, and the cones
      of later vertices come before it. */
  lemma ListedCone(s: Space, d: seq<nat>, positions: seq<seq<nat>>, a: nat) returns (j: nat)
    requires Valid(s) && IsDigits(Radix(s), d) && ListsFrom(s.dag, 0, positions) && a < |positions|
    requires NoneMatch(s, d, positions[..a])
    ensures ConeAt(s.dag, j) && positions[a] == ConeList(s.dag, j) && |positions[a]| == |SUBGRAPH|
    ensures forall i :: 0 <= i < |positions[a]| ==> InPlace(s, d, positions[a][i])
    ensures NoneAbove(s, d, j)
  {
    hide Valid, Positions, Topological, IsCut, ConeLists;
    j := EntryOf(s.dag, 0, a);
    ConeSize(s.dag, j);
    forall i | 0 <= i < |positions[a]| ensures InPlace(s, d, positions[a][i]) {
      PositionAt(Marks(s.dag, j), i);
      SymbolHere(s, d, positions[a][i]);
    }
    NoneFrom(s, d, j + 1);
  }

  /** The assignment on none of the listed cones is on record. */
  ghost predicate NoneMatch(s: Space, d: seq<nat>, positions: seq<seq<nat>>) {
    forall b, c :: 0 <= b < |positions| && 0 <= c < |s.duplicated| ==> !SameOn(s, d, positions[b], s.duplicated[c])
  }

  lemma NoneFrom(s: Space, d: seq<nat>, n: nat)
    requires NoneMatch(s, d, ConeLists(s.dag, n))
    ensures forall i: nat, c: nat :: n <= i ==> !BadCone(s, d, i, c)
  {
    hide ConeAt, SameOn, ConeList, ConeLists;
    forall i: nat, c: nat | n <= i ensures !BadCone(s, d, i, c) {
      if ConeAt(s.dag, i) {
        var b := EntryFor(s.dag, n, i);
      }
    }
  }

  predicate InPlace(s: Space, d: seq<nat>, i: nat) {
    i < |s.possible| && i < |d| && d[i] < |s.possible[i]| && SymAt(s, d, i) == s.possible[i][d[i]]
  }

  lemma RecordSize(s: Space, c: nat)
    requires Valid(s) && c < |s.duplicated|
    ensures |s.duplicated[c]| == |SUBGRAPH|
  {
  }

  lemma ConeMatch(s: Space, d: seq<nat>, j: nat, c: nat)
    requires Valid(s) && Supported(s) && IsDigits(Radix(s), d)
    requires ConeAt(s.dag, j) && c < |s.duplicated| && SameOn(s, d, ConeList(s.dag, j), s.duplicated[c])
    requires FineFrom(s, d, 0) && NoneAbove(s, d, j)
    ensures Bad(s, d)
    ensures var P := ConeList(s.dag, j);
            |P| == |SUBGRAPH| && P[0] < |s.possible| && SkipsOnlyCovered(s, d, P[0]) && JumpsAt(s, d, P[0])
  {
    assert BadCone(s, d, j, c);
    assert FineFrom(s, d, 0) && ConeStart(s, j, ConeList(s.dag, j)[0]) by {
      ConeSize(s.dag, j);
    }
    hide Valid, ConeAt, SameOn, SkipsOnlyCovered, ConeList;
    OnRecordByCone(s, d, j, c);
    ConeJump(s, d, j, c);
  }

  lemma NoConeMatch(s: Space, d: seq<nat>, positions: seq<seq<nat>>)
    requires ListsFrom(s.dag, 0, positions) && NoneMatch(s, d, positions)
    ensures !OnRecord(s, d)
  {
    hide ConeAt, SameOn, ConeList, ConeLists;
    NoneFrom(s, d, 0);
  }

  lemma FlaggedRow(s: Space, d: seq<nat>, g: nat)
    requires Valid(s) && IsDigits(Radix(s), d) && g < |s.dag| && SymAt(s, d, g) < |s.symbols|
    requires s.symbols[SymAt(s, d, g)].commutative || s.symbols[SymAt(s, d, g)].idempotent
    ensures |s.dag[g]| == 2 && 1 <= s.dag[g][0] <= g && 1 <= s.dag[g][1] <= g
  {
    hide Valid;
    SymbolHere(s, d, g);
    FlagAt(s, SymAt(s, d, g));
  }

  /** Neither test applies to gate g. */
  lemma GateFine(s: Space, d: seq<nat>, g: nat)
    requires Valid(s) && IsDigits(Radix(s), d) && g < |s.dag| && SymAt(s, d, g) < |s.symbols|
    requires s.symbols[SymAt(s, d, g)].commutative ==> InOrder(InputsOf(s, d, s.dag[g], |s.dag[g]|))
    requires s.symbols[SymAt(s, d, g)].idempotent ==> IsUnique(InputsOf(s, d, s.dag[g], |s.dag[g]|))
    ensures !BadGate(s, d, g)
  {
    hide Valid, InputsOf, InOrder, IsUnique;
    if s.symbols[SymAt(s, d, g)].commutative || s.symbols[SymAt(s, d, g)].idempotent {
      FlaggedRow(s, d, g);
      BadByInputs(s, d, g);
    }
  }

  /** One of the tests applies to gate g: a jump at its upper child is in order. */
  lemma GateCaught(s: Space, d: seq<nat>, g: nat)
    requires Valid(s) && Supported(s) && IsDigits(Radix(s), d)
    requires g < |s.dag| && SymAt(s, d, g) < |s.symbols|
    requires |s.dag[g]| == 2 && s.dag[g][0] > 0 && s.dag[g][1] > 0
    requires || (s.symbols[SymAt(s, d, g)].commutative && !InOrder(InputsOf(s, d, s.dag[g], 2)))
             || (s.symbols[SymAt(s, d, g)].idempotent && !IsUnique(InputsOf(s, d, s.dag[g], 2)))
    requires FineFrom(s, d, g + 1)
    ensures Bad(s, d) && s.dag[g][1] == s.dag[g][0] + 1
    ensures s.dag[g][1] - 1 < |s.possible| && SkipsOnlyCovered(s, d, s.dag[g][1] - 1) && JumpsAt(s, d, s.dag[g][1] - 1)
  {
    hide Valid, InputsOf, InOrder, IsUnique, SkipsOnlyCovered, BadGate, Bad;
    BadByInputs(s, d, g);
    GateJump(s, d, g);
    BadByGate(s, d, g);
    assert !FineFrom(s, d, 0) && JumpGate(s, d, s.dag[g][1] - 1, g);
  }

  lemma NoGates(s: Space, d: seq<nat>)
    ensures FineFrom(s, d, |s.dag|)
  {
  }

  lemma FineMore(s: Space, d: seq<nat>, g: nat)
    requires FineFrom(s, d, g + 1) && !BadGate(s, d, g)
    ensures FineFrom(s, d, g)
  {
    hide BadGate;
  }

  lemma NotBad(s: Space, d: seq<nat>)
    requires FineFrom(s, d, 0)
    requires !OnRecord(s, d)
    ensures !Bad(s, d)
  {
    hide OnRecord;
  }

  lemma JumpedBad(s: Space, d: seq<nat>, e: seq<nat>, more: bool)
    requires Jumped(s, d, e, more)
    ensures Bad(s, d)
  {
  }

  /** The marked vertices in ascending order. */
  method ListMarks(m: seq<bool>) returns (list: seq<nat>)
    ensures list == Positions(m)
  {
    list := [];
    for k := 0 to |m|
      invariant list == Positions(m[..k])
    {
      assert m[..k + 1][..k] == m[..k];
      if m[k] {
        list := list + [k];
      }
    }
    assert m[..|m|] == m;
  }

  class Enumerator {
    const symbols: seq<Symbol>
    const duplicated: seq<seq<nat>>
    var dag: Rows
    var possible: seq<seq<nat>>
    var current: seq<nat>
    var nextTask: Task
    var positions: seq<seq<nat>>
    var queue: seq<Candidate>

    constructor (symbols: seq<Symbol>, duplicated: seq<seq<nat>>)
      ensures this.symbols == symbols && this.duplicated == duplicated
      ensures nextTask == Nothing && queue == []
    {
      this.symbols, this.duplicated := symbols, duplicated;
      dag, possible, current, positions := [], [], [], [];
      nextTask, queue := Nothing, [];
    }

    ghost function Here(): Space
      reads this
    {
      Space(symbols, dag, possible, duplicated)
    }

    /** A DAG is laid out, all vertices have options, and the odometer stands somewhere. */
    ghost predicate Ready()
      reads this
    {
      && Valid(Here()) && Supported(Here()) && |possible| == |dag| && IsDigits(Radix(Here()), current)
      && ListsFrom(dag, 0, positions)
    }

    method GetNodesIndexes(cardinality: nat) returns (r: seq<nat>)
      ensures r == IndexesOf(symbols, cardinality, |symbols|)
    {
      r := [];
      for i := 0 to |symbols|
        invariant r == IndexesOf(symbols, cardinality, i)
      {
        if symbols[i].numChildren == cardinality {
          r := r + [i];
        }
      }
    }

    /** Lists the symbols every vertex may take. */
    method CollectPossible()
      requires |dag| > 0
      modifies `possible
      ensures possible == PossibleOf(symbols, dag)
    {
      possible := [];
      for i := 0 to |dag|
        invariant |possible| == i
        invariant forall k :: 0 <= k < i ==> possible[k] == IndexesOf(symbols, Children(dag[k]), |symbols|)
      {
        var nodes := GetNodesIndexes(Children(dag[i]));
        possible := possible + [nodes];
      }
      var head := |dag| - 1;
      possible := possible[head := RootsOf(symbols, possible[head])];
      assert possible == PossibleOf(symbols, dag);
    }

    /** Lists the vertices of the cones with the recorded structure, from the vertex
        before the root down. */
    method CollectPositions()
      requires |dag| > 0 && Topological(dag)
      modifies `positions
      ensures ListsFrom(dag, 0, positions)
    {
      hide Topological, IsCut, Positions, ConeAt;
      positions := [];
      NoneListed(dag);
      var j := |dag| - 2;
      while j >= 0
        invariant -1 <= j <= |dag| - 2 && ListsFrom(dag, j + 1, positions)
      {
        var sub, grabbed := GetSubgraph(dag, j);
        if sub == SUBGRAPH {
          assert ConeAt(dag, j) by { FoundCone(dag, j, sub); }
          var list := ListMarks(grabbed);
          ListMore(dag, j, positions);
          positions := positions + [list];
        } else {
          ListSame(dag, j, sub, positions);
        }
        j := j - 1;
      }
    }

    /** Advances from a position on after resetting the digits below. */
    method IncreaseStackAtPosition(position: nat) returns (increased: bool)
      requires Supported(Here()) && IsDigits(Radix(Here()), current) && position < |possible|
      modifies `current, `nextTask
      ensures Bumped(Radix(Here()), old(current), position, current, increased)
      ensures nextTask == if increased then DoNotIncrease else NextDag
    {
      hide Turning, Bumped, Supported;
      ghost var r, d := Radix(Here()), current;
      for i := 0 to position
        invariant |current| == |d| && forall k :: 0 <= k < |d| ==> current[k] == if k < i then 0 else d[k]
      {
        current := current[i := 0];
      }
      TurnStart(r, d, position, current);
      for i := position to |possible|
        invariant Turning(r, d, position, i, current)
      {
        TurnStep(r, d, position, i, current);
        if current[i] + 1 == |possible[i]| {
          current := current[i := 0];
        } else {
          TurnedMore(r, d, position, i, current);
          current := current[i := current[i] + 1];
          nextTask := DoNotIncrease;
          return true;
        }
      }
      TurnedOver(r, d, position, current);
      nextTask := NextDag;
      return false;
    }

    method IncreaseStackTest() returns (increased: bool)
      requires Supported(Here()) && IsDigits(Radix(Here()), current)
      modifies `current
      ensures Bumped(Radix(Here()), old(current), 0, current, increased)
    {
      hide Turning, Bumped, Supported;
      ghost var r, d := Radix(Here()), current;
      TurnStart(r, d, 0, current);
      for i := 0 to |possible|
        invariant Turning(r, d, 0, i, current)
      {
        TurnStep(r, d, 0, i, current);
        if current[i] + 1 == |possible[i]| {
          current := current[i := 0];
        } else {
          TurnedMore(r, d, 0, i, current);
          current := current[i := current[i] + 1];
          return true;
        }
      }
      TurnedOver(r, d, 0, current);
      return false;
    }

    /** The positions of the children of a vertex, and the leaf symbols among them. */
    method LeafInputs(node: seq<nat>) returns (children: seq<nat>, inputs: seq<nat>)
      requires Ready() && forall i :: 0 <= i < |node| ==> 1 <= node[i] <= |dag|
      ensures |children| == |node| && forall i :: 0 <= i < |node| ==> children[i] == node[i] - 1
      ensures inputs == InputsOf(Here(), current, node, |node|)
    {
      hide Valid, ListsFrom;
      children, inputs := seq(|node|, _ => 0), [];
      for i := 0 to |node|
        invariant |children| == |node| && forall k :: 0 <= k < i ==> children[k] == node[k] - 1
        invariant inputs == InputsOf(Here(), current, node, i)
      {
        SymbolHere(Here(), current, node[i] - 1);
        var value := possible[node[i] - 1][current[node[i] - 1]];
        children := children[i := node[i] - 1];
        if symbols[value].numChildren == 0 {
          inputs := inputs + [value];
        }
      }
    }

    /** Whether the current assignment on the listed vertices is a recorded one. */
    method SameAssignment(list: seq<nat>, recorded: seq<nat>) returns (flag: bool)
      requires |list| <= |recorded| && forall i :: 0 <= i < |list| ==> InPlace(Here(), current, list[i])
      ensures flag <==> SameOn(Here(), current, list, recorded)
    {
      for i := 0 to |list|
        invariant forall k :: 0 <= k < i ==> SymAt(Here(), current, list[k]) == recorded[k]
      {
        assert InPlace(Here(), current, list[i]);
        if possible[list[i]][current[list[i]]] != recorded[i] {
          return false;
        }
      }
      return true;
    }

    /** Compares the assignment on one listed cone with the recorded ones. */
    method CheckCone(list: seq<nat>, ghost j: nat) returns (dup: bool)
      requires Ready() && FineFrom(Here(), current, 0) && NoneAbove(Here(), current, j)
      requires ConeAt(dag, j) && list == ConeList(dag, j) && |list| == |SUBGRAPH|
      requires forall i :: 0 <= i < |list| ==> InPlace(Here(), current, list[i])
      modifies `current, `nextTask
      ensures !dup ==> current == old(current) && nextTask == old(nextTask)
      ensures !dup ==> forall c :: 0 <= c < |duplicated| ==> !SameOn(Here(), current, list, duplicated[c])
      ensures dup ==> nextTask != Nothing && Jumped(Here(), old(current), current, nextTask == DoNotIncrease)
    {
      hide Valid, ConeAt, SameOn, Bumped, SkipsOnlyCovered, Jumped, JumpsAt, FineFrom, Bad, Supported, ListsFrom,
          ConeList, InPlace;
      ghost var s, d := Here(), current;
      for c := 0 to |duplicated|
        invariant current == d && nextTask == old(nextTask)
        invariant forall b :: 0 <= b < c ==> !SameOn(s, d, list, duplicated[b])
      {
        RecordSize(s, c);
        var flag := SameAssignment(list, duplicated[c]);
        if flag {
          ConeMatch(s, d, j, c);
          var more := IncreaseStackAtPosition(list[0]);
          MakeJumped(s, d, list[0], current, more);
          return true;
        }
      }
      return false;
    }

    /** Looks for a recorded duplicate on one of the listed cones. */
    method DuplicateAccumulationCheck() returns (dup: bool)
      requires Ready() && FineFrom(Here(), current, 0)
      modifies `current, `nextTask
      ensures !dup ==> current == old(current) && nextTask == old(nextTask)
      ensures !dup ==> !OnRecord(Here(), current)
      ensures dup ==> nextTask != Nothing && Jumped(Here(), old(current), current, nextTask == DoNotIncrease)
    {
      hide Valid, ConeAt, SameOn, OnRecord, Jumped, FineFrom, Bad, Supported, ListsFrom, ConeList, InPlace;
      ghost var s, d := Here(), current;
      for a := 0 to |positions|
        invariant current == d && nextTask == old(nextTask)
        invariant NoneMatch(s, d, positions[..a])
      {
        ghost var j := ListedCone(s, d, positions, a);
        dup := CheckCone(positions[a], j);
        if dup {
          return;
        }
        assert NoneMatch(s, d, positions[..a + 1]);
      }
      assert positions[..|positions|] == positions;
      NoConeMatch(s, d, positions);
      return false;
    }

    /** The two tests of vertex `index`. */
    method CheckGate(index: nat) returns (dup: bool)
      requires Ready() && index < |dag| && FineFrom(Here(), current, index + 1)
      modifies `current, `nextTask
      ensures !dup ==> current == old(current) && nextTask == old(nextTask) && FineFrom(Here(), current, index)
      ensures dup ==> nextTask != Nothing && Jumped(Here(), old(current), current, nextTask == DoNotIncrease)
    {
      hide Valid, Bumped, SkipsOnlyCovered, Jumped, JumpsAt, FineFrom, Supported, BadGate, InputsOf, ListsFrom;
      ghost var s, d := Here(), current;
      var node := dag[index];
      SymbolHere(s, d, index);
      var symbol := symbols[possible[index][current[index]]];
      if symbol.commutative {
        FlaggedRow(s, d, index);
        var children, inputs := LeafInputs(node);
        if !InOrder(inputs) {
          GateCaught(s, d, index);
          var more := IncreaseStackAtPosition(Upper(children));
          MakeJumped(s, d, children[1], current, more);
          return true;
        }
      }
      if symbol.idempotent {
        FlaggedRow(s, d, index);
        var children, inputs := LeafInputs(node);
        if !IsUnique(inputs) {
          GateCaught(s, d, index);
          var more := IncreaseStackAtPosition(Upper(children));
          MakeJumped(s, d, children[1], current, more);
          return true;
        }
      }
      GateFine(s, d, index);
      FineMore(s, d, index);
      return false;
    }

    /** Whether the current assignment is a duplicate; if so, the odometer jumps. */
    method FormulaIsDuplicate() returns (dup: bool)
      requires Ready()
      modifies `current, `nextTask
      ensures dup <==> Bad(Here(), old(current))
      ensures !dup ==> current == old(current) && nextTask == old(nextTask)
      ensures dup ==> nextTask != Nothing && Jumped(Here(), old(current), current, nextTask == DoNotIncrease)
    {
      hide Valid, Jumped, FineFrom, Supported, BadGate, OnRecord, ListsFrom;
      ghost var s, d := Here(), current;
      assert FineFrom(s, d, |dag|) by { NoGates(s, d); }
      var index := |dag| - 1;
      while index >= 0
        invariant -1 <= index < |dag| && current == d && nextTask == old(nextTask)
        invariant FineFrom(s, d, index + 1)
      {
        dup := CheckGate(index);
        if dup {
          JumpedBad(s, d, current, nextTask == DoNotIncrease);
          return;
        }
        index := index - 1;
      }
      dup := DuplicateAccumulationCheck();
      if dup {
        JumpedBad(s, d, current, nextTask == DoNotIncrease);
      } else {
        NotBad(s, d);
      }
    }

    /** A vertex without options makes the DAG unsupported. */
    method CheckOptions()
      modifies `nextTask
      ensures nextTask == if Supported(Here()) then old(nextTask) else NextDag
    {
      for i := 0 to |possible|
        invariant nextTask == old(nextTask) && forall k :: 0 <= k < i ==> possible[k] != []
      {
        if possible[i] == [] {
          nextTask := NextDag;
          assert Radix(Here())[i] == 0;
          break;
        }
      }
    }

    /** Lays a DAG out and sets the odometer to its first assignment. */
    method Initialize(g: Rows, fanin: nat)
      requires IsDag(g, fanin) && |g| > 0
      modifies `dag, `possible, `current, `nextTask, `positions
      ensures Here() == LaidOut(symbols, duplicated, g, fanin) && |possible| == |dag|
      ensures current == Zeros(|possible|) && ListsFrom(dag, 0, positions)
      ensures nextTask == if Supported(Here()) then old(nextTask) else NextDag
    {
      hide ListsFrom, AllFull, PDagInsert.Inserted, Swapped, PossibleOf, Supported, Topological;
      var newDag, addedElements := PDagInsert.InsertInputs(g, fanin);
      InsertedRowsFull(g, fanin);
      dag := SwapLeafPairs(newDag);
      assert |dag| > 0 by { PDagInsert.InsertedRows(g, fanin); }
      CollectPossible();
      current := seq(|possible|, _ => 0);
      CheckOptions();
      SwappedTopological(g, fanin);
      CollectPositions();
    }

    /** The symbols of the current assignment. */
    method GetCurrentAssignment() returns (a: seq<nat>)
      requires Ready()
      ensures a == Syms(Here(), current)
    {
      hide Valid, ListsFrom;
      a := [];
      for i := 0 to |current|
        invariant |a| == i && forall k :: 0 <= k < i ==> a[k] == SymAt(Here(), current, k)
      {
        SymbolHere(Here(), current, i);
        a := a + [possible[i][current[i]]];
      }
    }

    /** One round: the current assignment is handed on or jumped over. */
    method Advance(ghost was: seq<Candidate>, ghost done: seq<Candidate>) returns (over: bool,
        ghost done': seq<Candidate>)
      requires Ready() && nextTask == Nothing && queue == was + done && Progress(Here(), done, current)
      modifies `current, `nextTask, `queue
      ensures queue == was + done' && nextTask != DoNotIncrease
      ensures over ==> done' == Offered(Here()) && nextTask == if Sticks(Here()) then NextDag else Nothing
      ensures !over ==> IsDigits(Radix(Here()), current)
      ensures !over && nextTask == NextDag ==> done' == Offered(Here()) && !Sticks(Here())
      ensures !over && nextTask == Nothing ==> Progress(Here(), done', current)
      ensures !over && nextTask == Nothing ==>
                Val(Radix(Here()), old(current)) < Val(Radix(Here()), current) < Total(Radix(Here()))
    {
      hide Valid, ListsFrom, Bumped, Jumped, Progress, Offered, Sticks, Bad, Val, Total, Supported, Syms;
      ghost var s, d := Here(), current;
      done' := done;
      var duplicate := FormulaIsDuplicate();
      ghost var z := current;
      if !duplicate {
        var a := GetCurrentAssignment();
        queue := queue + [Candidate(dag, a)];
        done' := done + [Candidate(s.dag, Syms(s, d))];
      } else {
        JumpOffered(s, done, d, z, nextTask == DoNotIncrease);
      }
      if nextTask == DoNotIncrease {
        nextTask := Nothing;
        over := false;
      } else {
        var increased := IncreaseStackTest();
        over := !increased;
        if !duplicate {
          StepOffered(s, done, d, current, increased);
        } else {
          WrapAgain(s, d, z, current, increased);
        }
      }
    }

    /** Hands on the assignments of one DAG. */
    method Run()
      requires Valid(Here()) && |possible| == |dag| && ListsFrom(dag, 0, positions) && current == Zeros(|possible|)
      requires nextTask != DoNotIncrease && (nextTask == Nothing ==> Supported(Here()))
      modifies `current, `nextTask, `queue
      ensures queue == old(queue) + if old(nextTask) == Nothing then Offered(Here()) else []
      ensures nextTask == if old(nextTask) == Nothing && Sticks(Here()) then NextDag else Nothing
    {
      hide Valid, ListsFrom, Progress, Offered, Sticks, Val, Total;
      ghost var s, done := Here(), [];
      if nextTask == Nothing {
        RunStarts(s);
        FirstBelow(s);
      }
      while true
        invariant Here() == s && nextTask != DoNotIncrease && queue == old(queue) + done
        invariant old(nextTask) == NextDag ==> nextTask == NextDag && done == []
        invariant old(nextTask) == Nothing ==> IsDigits(Radix(s), current)
        invariant old(nextTask) == Nothing && nextTask == Nothing ==> Progress(s, done, current)
        invariant nextTask == Nothing ==> |current| == |possible| && Val(Radix(s), current) < Total(Radix(s))
        invariant old(nextTask) == Nothing && nextTask == NextDag ==> done == Offered(s) && !Sticks(s)
        decreases if nextTask == NextDag then 0 else Total(Radix(s)) - Val(Radix(s), current)
      {
        if nextTask == NextDag {
          nextTask := Nothing;
          break;
        }
        var over;
        over, done := Advance(old(queue), done);
        if over {
          break;
        }
      }
    }

    /** Hands on the assignments of all DAGs. */
    method Enumerate(pdags: seq<Rows>)
      requires FlagsOk(symbols) && Recorded(duplicated)
      requires forall k :: 0 <= k < |pdags| ==> IsDag(pdags[k], 2) && |pdags[k]| > 0
      requires nextTask == Nothing
      modifies this
      ensures queue == old(queue) + AllOffered(symbols, duplicated, pdags, false)
    {
      hide FlagsOk, Recorded, IsDag, Offered, Sticks, SpaceOf, LaidOut, Valid, ListsFrom, AllOffered;
      assert pdags[0..] == pdags;
      for i := 0 to |pdags|
        invariant nextTask != DoNotIncrease
        invariant queue + AllOffered(symbols, duplicated, pdags[i..], nextTask == NextDag) ==
                  old(queue) + AllOffered(symbols, duplicated, pdags, false)
      {
        assert pdags[i..][0] == pdags[i] && pdags[i..][1..] == pdags[i + 1..];
        OfferNext(symbols, duplicated, pdags[i..], nextTask == NextDag);
        SpaceValid(symbols, duplicated, pdags[i]);
        Initialize(pdags[i], 2);
        Run();
      }
      OfferNone(symbols, duplicated, nextTask == NextDag);
    }
  }
}
