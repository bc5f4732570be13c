/** What the gate tests cost in values: exchanging the inputs of commutative gates leads
    from every assignment to one with the same value that the tests leave alone. */
module PDagMeaning {
  import opened PDag
  import opened PDagInsert
  import opened PDagLayout
  import opened PDagCone
  import opened MixedRadix
  import opened PDagSpace
  import opened PDagRecord
  import opened PDagOffer

  /** Exchanging the operands keeps the value. */
  ghost predicate Symmetric<D(!new)>(sem: Sem<D>, y: nat) {
    forall a, b :: sem.op(y, [a, b]) == sem.op(y, [b, a])
  }

  /** Symbols flagged commutative are. */
  ghost predicate Lawful<D(!new)>(sem: Sem<D>, symbols: seq<Symbol>) {
    forall y {:trigger Symmetric(sem, y)} :: 0 <= y < |symbols| && symbols[y].commutative ==> Symmetric(sem, y)
  }

  // --- Every input has one reader -------------------------------------------

  /** Gates x and y read the same input. */
  ghost predicate Share(dag: Rows, x: nat, k: nat, y: nat, l: nat) {
    && x < |dag| && y < |dag| && |dag[x]| == |dag[y]| == 2 && k < 2 && l < 2
    && 1 <= dag[x][k] <= |dag| && dag[x][k] == dag[y][l] && IsLeafNode(dag[dag[x][k] - 1])
  }

  ghost predicate ReadOnce(dag: Rows) {
    forall x: nat, k: nat, y: nat, l: nat :: Share(dag, x, k, y, l) ==> x == y
  }

  /** An entry of the laid-out DAG that reads an input was a free fan-in of that gate. */
  lemma ReaderIsFree(g: Rows, x: nat, k: nat) returns (i: nat, m: nat)
    requires IsDag(g, 2) && x < |LaidOutDag(g)| && |LaidOutDag(g)[x]| == 2 && k < 2
    requires 1 <= LaidOutDag(g)[x][k] <= Free(g)
    ensures i < |g| && x == Free(g) + i && m < 2 && |g[i]| == 2 && g[i][m] == 0
    ensures LaidOutDag(g)[x][k] == Entry(g, Free(g), i, m)
  {
    hide Free, LaidOutDag, Entry;
    BlankIsInput(g, x);
    i := x - Free(g);
    GateRow(g, i);
    if g[i] == [0, 0] {
      PairRow(g, i);
      m := 1 - k;
    } else {
      OtherRow(g, i);
      m := k;
    }
  }

  lemma InputsReadOnce(g: Rows)
    requires IsDag(g, 2)
    ensures ReadOnce(LaidOutDag(g))
  {
    hide Free, LaidOutDag, Entry, IsLeafNode;
    forall x: nat, k: nat, y: nat, l: nat | Share(LaidOutDag(g), x, k, y, l) ensures x == y {
      LeafBelow(g, LaidOutDag(g)[x][k] - 1);
      var i, m := ReaderIsFree(g, x, k);
      var j, n := ReaderIsFree(g, y, l);
      if i != j {
        EntriesApart(g, i, m, j, n);
      }
    }
  }

  lemma EntriesApart(g: Rows, i: nat, m: nat, j: nat, n: nat)
    requires IsDag(g, 2) && i < |g| && j < |g| && m < 2 && n < 2 && |g[i]| == |g[j]| == 2
    requires g[i][m] == 0 && g[j][n] == 0 && i != j
    ensures Entry(g, Free(g), i, m) != Entry(g, Free(g), j, n)
  {
    EntriesDiffer(g, 2);
    assert TwoFree(g, 2, i, m, j, n);
  }

  lemma LeafBelow(g: Rows, v: nat)
    requires IsDag(g, 2) && v < |LaidOutDag(g)| && IsLeafNode(LaidOutDag(g)[v])
    ensures v < Free(g)
  {
    hide Free, LaidOutDag;
    BlankIsInput(g, v);
    if v >= Free(g) {
      GateRow(g, v - Free(g));
    }
  }

  // --- Exchanging the inputs of gates in the wrong order --------------------

  /** The two input children of gate x are in the wrong order for its commutative symbol. */
  ghost predicate Crossed(s: Space, d: seq<nat>, x: nat) {
    && x < |s.dag| && LeafPair(s.dag, s.dag[x]) && SymAt(s, d, x) < |s.symbols| && s.symbols[SymAt(s, d, x)].commutative
    && SymAt(s, d, s.dag[x][0] - 1) > SymAt(s, d, s.dag[x][1] - 1)
  }

  /** Vertex i is child k of such a gate. */
  ghost predicate CrossedAt(s: Space, d: seq<nat>, x: nat, k: nat, i: nat) {
    Crossed(s, d, x) && k < 2 && s.dag[x][k] == i + 1
  }

  /** The vertex whose symbol i gets. */
  ghost function Partner(s: Space, d: seq<nat>, i: nat): nat {
    if exists x: nat :: CrossedAt(s, d, x, 0, i) then i + 1
    else if i > 0 && exists x: nat :: CrossedAt(s, d, x, 1, i) then i - 1
    else i
  }

  ghost function Uncrossed(s: Space, d: seq<nat>): (e: seq<nat>)
    ensures |e| == |d|
    ensures forall i :: 0 <= i < |d| ==> e[i] == if Partner(s, d, i) < |d| then d[Partner(s, d, i)] else 0
  {
    seq(|d|, i requires 0 <= i < |d| => if Partner(s, d, i) < |d| then d[Partner(s, d, i)] else 0)
  }

  /** The children of such a gate get each other's symbol. */
  lemma PartnersOf(s: Space, d: seq<nat>, x: nat)
    requires Valid(s) && ReadOnce(s.dag) && Crossed(s, d, x)
    ensures var p := s.dag[x][0] - 1;
            s.dag[x][1] == p + 2 && p + 1 < x && Partner(s, d, p) == p + 1 && Partner(s, d, p + 1) == p
  {
    hide Valid, ReadOnce;
    ValidAt(s, x);
    var p := s.dag[x][0] - 1;
    assert CrossedAt(s, d, x, 0, p) && CrossedAt(s, d, x, 1, p + 1);
    var q := p + 1;
    forall y: nat ensures !CrossedAt(s, d, y, 0, q) {
      if CrossedAt(s, d, y, 0, q) {
        OneReader(s.dag, x, 1, y, 0);
      }
    }
  }

  lemma OneReader(dag: Rows, x: nat, k: nat, y: nat, l: nat)
    requires ReadOnce(dag) && Share(dag, x, k, y, l)
    ensures x == y
  {
  }

  /** Every other vertex keeps its own. */
  lemma KeepsOwn(s: Space, d: seq<nat>, i: nat)
    requires forall x: nat, k: nat :: !CrossedAt(s, d, x, k, i)
    ensures Partner(s, d, i) == i
  {
  }

  lemma GateKeepsOwn(s: Space, d: seq<nat>, v: nat)
    requires v < |s.dag| && !IsLeafNode(s.dag[v])
    ensures Partner(s, d, v) == v
  {
  }

  /** So do the children of a gate in order. */
  lemma ChildKeepsOwn(s: Space, d: seq<nat>, v: nat, k: nat)
    requires ReadOnce(s.dag) && v < |s.dag| && |s.dag[v]| == 2 && k < 2 && 1 <= s.dag[v][k] <= |s.dag|
    requires !Crossed(s, d, v)
    ensures Partner(s, d, s.dag[v][k] - 1) == s.dag[v][k] - 1
  {
    hide ReadOnce;
    var i := s.dag[v][k] - 1;
    forall x: nat, l: nat ensures !CrossedAt(s, d, x, l, i) {
      if CrossedAt(s, d, x, l, i) {
        OneReader(s.dag, v, k, x, l);
      }
    }
  }

  /** The result is an assignment, and every vertex has its partner's symbol. */
  lemma UncrossedFits(s: Space, d: seq<nat>)
    requires Valid(s) && ReadOnce(s.dag) && IsDigits(Radix(s), d)
    ensures IsDigits(Radix(s), Uncrossed(s, d))
    ensures forall i: nat :: i < |d| ==> SymAt(s, Uncrossed(s, d), i) == SymAt(s, d, Partner(s, d, i))
  {
    hide Valid, ReadOnce, Partner, Uncrossed;
    ValidLength(s);
    forall i: nat | i < |d|
      ensures Partner(s, d, i) < |d| && s.possible[Partner(s, d, i)] == s.possible[i]
    {
      PartnerAlike(s, d, i);
    }
  }

  /** Partners have the same options. */
  lemma PartnerAlike(s: Space, d: seq<nat>, i: nat)
    requires Valid(s) && ReadOnce(s.dag) && i < |s.dag|
    ensures |s.possible| == |s.dag| && Partner(s, d, i) < |s.dag| && s.possible[Partner(s, d, i)] == s.possible[i]
  {
    hide Valid, ReadOnce;
    ValidLength(s);
    if x: nat, k: nat :| CrossedAt(s, d, x, k, i) {
      PartnersOf(s, d, x);
      ValidAt(s, s.dag[x][0] - 1);
      ValidAt(s, s.dag[x][1] - 1);
    } else {
      KeepsOwn(s, d, i);
    }
  }

  // --- The value stays ------------------------------------------------------

  ghost predicate Ready<D(!new)>(sem: Sem<D>, s: Space, d: seq<nat>) {
    && Valid(s) && Topological(s.dag) && ReadOnce(s.dag) && Lawful(sem, s.symbols)
    && IsDigits(Radix(s), d) && |d| == |s.dag|
  }

  ghost function ValueAt<D(!new)>(sem: Sem<D>, s: Space, d: seq<nat>, v: nat): D
    requires Topological(s.dag) && |d| == |s.dag| && v < |s.dag|
  {
    EvalAt(sem, s.dag, Syms(s, d), v)
  }

  lemma SymmetricAt<D(!new)>(sem: Sem<D>, symbols: seq<Symbol>, y: nat, a: D, b: D)
    requires Lawful(sem, symbols) && y < |symbols| && symbols[y].commutative
    ensures sem.op(y, [a, b]) == sem.op(y, [b, a])
  {
    assert Symmetric(sem, y);
  }

  /** What a vertex computes, by its row. */
  lemma ValueOfRow<D(!new)>(sem: Sem<D>, s: Space, d: seq<nat>, v: nat)
    requires Valid(s) && Topological(s.dag) && |d| == |s.dag| && v < |s.dag|
    ensures |s.dag[v]| == 2
    ensures IsLeafNode(s.dag[v]) ==> ValueAt(sem, s, d, v) == sem.op(SymAt(s, d, v), [])
    ensures !IsLeafNode(s.dag[v]) ==>
              && 1 <= s.dag[v][0] <= v && 1 <= s.dag[v][1] <= v
              && ValueAt(sem, s, d, v) == sem.op(SymAt(s, d, v),
                   [ValueAt(sem, s, d, s.dag[v][0] - 1), ValueAt(sem, s, d, s.dag[v][1] - 1)])
  {
    hide Valid;
    ValidAt(s, v);
    EvalTwo(sem, s.dag, Syms(s, d), v);
  }

  lemma CrossedSymbol(s: Space, d: seq<nat>, x: nat)
    requires Crossed(s, d, x)
    ensures SymAt(s, d, x) < |s.symbols| && s.symbols[SymAt(s, d, x)].commutative
    ensures x < |s.dag| && LeafPair(s.dag, s.dag[x])
  {
  }

  /** The inputs of a gate in the wrong order exchange their values. */
  lemma ValuesSwapped<D(!new)>(sem: Sem<D>, s: Space, d: seq<nat>, v: nat)
    requires Ready(sem, s, d) && Crossed(s, d, v)
    ensures var a, b, e := s.dag[v][0] - 1, s.dag[v][1] - 1, Uncrossed(s, d);
            && a < |s.dag| && b < |s.dag|
            && ValueAt(sem, s, e, a) == ValueAt(sem, s, d, b) && ValueAt(sem, s, e, b) == ValueAt(sem, s, d, a)
  {
    hide Valid, ReadOnce, Lawful, Topological, Uncrossed, ValueAt, Partner, Crossed;
    var e := Uncrossed(s, d);
    UncrossedFits(s, d);
    PartnersOf(s, d, v);
    CrossedSymbol(s, d, v);
    var a, b := s.dag[v][0] - 1, s.dag[v][1] - 1;
    ValueOfRow(sem, s, d, a);
    ValueOfRow(sem, s, e, a);
    ValueOfRow(sem, s, d, b);
    ValueOfRow(sem, s, e, b);
  }

  /** A vertex that keeps its own symbol keeps its value. */
  lemma {:induction false} ValueKept<D(!new)>(sem: Sem<D>, s: Space, d: seq<nat>, v: nat)
    requires Ready(sem, s, d) && v < |s.dag| && Partner(s, d, v) == v
    ensures ValueAt(sem, s, Uncrossed(s, d), v) == ValueAt(sem, s, d, v)
    decreases v
  {
    hide Valid, ReadOnce, Lawful, Topological, Uncrossed, ValueAt, Partner, Crossed, IsLeafNode, IsDigits, SymAt,
         LeafPair;
    var e := Uncrossed(s, d);
    UncrossedFits(s, d);
    ValueOfRow(sem, s, d, v);
    ValueOfRow(sem, s, e, v);
    if !IsLeafNode(s.dag[v]) {
      var a, b := s.dag[v][0] - 1, s.dag[v][1] - 1;
      if Crossed(s, d, v) {
        ValuesSwapped(sem, s, d, v);
        CrossedSymbol(s, d, v);
        SymmetricAt(sem, s.symbols, SymAt(s, d, v), ValueAt(sem, s, d, a), ValueAt(sem, s, d, b));
      } else {
        ChildKeepsOwn(s, d, v, 0);
        ChildKeepsOwn(s, d, v, 1);
        ValueKept(sem, s, d, a);
        ValueKept(sem, s, d, b);
      }
    }
  }

  // --- The tests afterwards -------------------------------------------------

  /** Gate x is over two inputs with the same symbol, and idempotent. */
  ghost predicate Doubled(s: Space, d: seq<nat>, x: nat) {
    && x < |s.dag| && LeafPair(s.dag, s.dag[x]) && SymAt(s, d, x) < |s.symbols| && s.symbols[SymAt(s, d, x)].idempotent
    && SymAt(s, d, s.dag[x][0] - 1) == SymAt(s, d, s.dag[x][1] - 1)
  }

  lemma PairKeepsOwn(s: Space, d: seq<nat>, x: nat)
    requires x < |s.dag| && LeafPair(s.dag, s.dag[x])
    ensures Partner(s, d, x) == x
  {
    GateKeepsOwn(s, d, x);
  }

  lemma RisesOrDoubled(s: Space, d: seq<nat>, x: nat)
    requires Valid(s) && ReadOnce(s.dag) && IsDigits(Radix(s), d)
    requires forall y :: 0 <= y < |s.symbols| && s.symbols[y].idempotent ==> s.symbols[y].commutative
    ensures RisesAt(s, Uncrossed(s, d), x) || Doubled(s, Uncrossed(s, d), x)
  {
    hide Valid, ReadOnce, Uncrossed, Partner, IsLeafNode, IsDigits;
    ValidLength(s);
    UncrossedFits(s, d);
    if x < |s.dag| && LeafPair(s.dag, s.dag[x]) {
      PairKeepsOwn(s, d, x);
      if Crossed(s, d, x) {
        PartnersOf(s, d, x);
      } else {
        ChildKeepsOwn(s, d, x, 0);
        ChildKeepsOwn(s, d, x, 1);
      }
    }
  }

  /** Afterwards every gate over two inputs is in order, but for repeated inputs. */
  lemma UncrossedTests(s: Space, d: seq<nat>)
    requires Valid(s) && ReadOnce(s.dag) && IsDigits(Radix(s), d) && s.duplicated == []
    requires forall y :: 0 <= y < |s.symbols| && s.symbols[y].idempotent ==> s.symbols[y].commutative
    ensures IsDigits(Radix(s), Uncrossed(s, d))
    ensures !Covered(s, Uncrossed(s, d)) || exists x: nat :: Doubled(s, Uncrossed(s, d), x)
  {
    hide Valid, ReadOnce, IsDigits, Covered, Bad, Uncrossed, RisesAt, PassesAt, Doubled;
    UncrossedFits(s, d);
    TestsExactly(s, Uncrossed(s, d));
    forall x: nat ensures RisesAt(s, Uncrossed(s, d), x) || Doubled(s, Uncrossed(s, d), x) {
      RisesOrDoubled(s, d, x);
    }
  }

  lemma SpaceParts(symbols: seq<Symbol>, g: Rows)
    ensures var s := SpaceOf(symbols, [], g); s.symbols == symbols && s.duplicated == [] && s.dag == LaidOutDag(g)
  {
  }

  lemma SpaceReady<D(!new)>(sem: Sem<D>, symbols: seq<Symbol>, g: Rows, d: seq<nat>)
    requires IsDag(g, 2) && |g| > 0 && FlagsOk(symbols) && Lawful(sem, symbols)
    requires IsDigits(Radix(SpaceOf(symbols, [], g)), d)
    ensures var s := SpaceOf(symbols, [], g);
            && Ready(sem, s, d) && s.symbols == symbols && s.duplicated == []
            && |s.dag| > 0 && Partner(s, d, |s.dag| - 1) == |s.dag| - 1
  {
    hide FlagsOk, Lawful, Valid, Partner, IsLeafNode, Topological, ReadOnce, PossibleOf, IsDag, LaidOutDag, SpaceOf;
    var s := SpaceOf(symbols, [], g);
    SpaceParts(symbols, g);
    SpaceValid(symbols, [], g);
    ValidLength(s);
    LaidOutTopological(g);
    InputsReadOnce(g);
    LastIsGate(g);
    GateKeepsOwn(s, d, |s.dag| - 1);
  }

  /** Where every idempotent symbol is commutative, every assignment of a laid-out DAG has
      one with the same value at the root that is handed on, or in which an idempotent
      gate has twice the same input. Without idempotent symbols no value is lost. */
  lemma ValuesKept<D(!new)>(sem: Sem<D>, symbols: seq<Symbol>, g: Rows, d: seq<nat>) returns (e: seq<nat>)
    requires IsDag(g, 2) && |g| > 0 && FlagsOk(symbols) && Lawful(sem, symbols)
    requires forall y :: 0 <= y < |symbols| && symbols[y].idempotent ==> symbols[y].commutative
    requires IsDigits(Radix(SpaceOf(symbols, [], g)), d)
    ensures var s := SpaceOf(symbols, [], g);
            && IsDigits(Radix(s), e) && |d| == |e| == |s.dag| > 0 && Topological(s.dag)
            && EvalAt(sem, s.dag, Syms(s, e), |s.dag| - 1) == EvalAt(sem, s.dag, Syms(s, d), |s.dag| - 1)
            && (!Covered(s, e) || exists x: nat :: Doubled(s, e, x))
  {
    hide FlagsOk, Lawful, Valid, Covered, Uncrossed, Partner, Doubled, Topological, ReadOnce, IsDigits, IsDag, SpaceOf,
         Syms, Radix;
    SpaceReady(sem, symbols, g, d);
    var s := SpaceOf(symbols, [], g);
    e := Uncrossed(s, d);
    ValueKept(sem, s, d, |s.dag| - 1);
    UncrossedTests(s, d);
  }

  /** So without idempotent symbols every value of the DAG is handed on. */
  lemma NoValueLost<D(!new)>(sem: Sem<D>, symbols: seq<Symbol>, g: Rows, d: seq<nat>) returns (c: Candidate)
    requires IsDag(g, 2) && |g| > 0 && FlagsOk(symbols) && Lawful(sem, symbols)
    requires forall y :: 0 <= y < |symbols| ==> !symbols[y].idempotent
    requires IsDigits(Radix(SpaceOf(symbols, [], g)), d)
    ensures var s := SpaceOf(symbols, [], g);
            && c in Offered(s) && c.pdag == s.dag && Topological(s.dag) && |c.assignments| == |d| == |s.dag| > 0
            && EvalAt(sem, c.pdag, c.assignments, |c.pdag| - 1) == EvalAt(sem, s.dag, Syms(s, d), |s.dag| - 1)
  {
    hide FlagsOk, Lawful, Covered, Topological, IsDag, SpaceOf, Keep, From, Val, EvalAt;
    var s := SpaceOf(symbols, [], g);
    assert s.symbols == symbols by { SpaceReady(sem, symbols, g, d); }
    var e := ValuesKept(sem, symbols, g, d);
    OfferedExactly(s, e);
    var ds := Keep(CoveredOf(s), From(Radix(s), 0));
    var i :| 0 <= i < |ds| && ds[i] == e;
    c := Candidate(s.dag, Syms(s, e));
    assert Candidates(s, ds)[i] == c;
  }

  lemma LastIsGate(g: Rows)
    requires IsDag(g, 2) && |g| > 0
    ensures |LaidOutDag(g)| > 0 && !IsLeafNode(LaidOutDag(g)[|LaidOutDag(g)| - 1])
  {
    hide Free, LaidOutDag;
    GateRow(g, 0);
    var v := |LaidOutDag(g)| - 1;
    if IsLeafNode(LaidOutDag(g)[v]) {
      LeafBelow(g, v);
    }
  }
}
