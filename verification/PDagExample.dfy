/** Two grammars for which the enumeration loses candidates: one where a DAG whose only
    assignment is a duplicate hides the DAG after it, and one where a jump passes over an
    assignment that is no duplicate. */
module PDagExample {
  import opened PDag
  import PDagInsert
  import opened PDagLayout
  import opened PDagCone
  import opened Numbers
  import opened MixedRadix
  import opened PDagSpace
  import opened PDagOffer
  import opened PDagVisit
  import opened PDagLoss

  /** One input, a conjunction for the root, and an exclusive or below it. */
  const GRAMMAR: seq<Symbol> :=
      [Symbol(0, false, false, false), Symbol(2, true, true, true), Symbol(2, false, false, false)]

  const ONE: Rows := [[0, 0]]
  const TWO: Rows := [[0, 0], [0, 1]]

  lemma Indexes()
    ensures IndexesOf(GRAMMAR, 0, 3) == [0] && IndexesOf(GRAMMAR, 2, 3) == [1, 2]
    ensures RootsOf(GRAMMAR, [1, 2]) == [1]
  {
    assert IndexesOf(GRAMMAR, 0, 1) == [0] && IndexesOf(GRAMMAR, 0, 2) == [0];
    assert IndexesOf(GRAMMAR, 2, 1) == [] && IndexesOf(GRAMMAR, 2, 2) == [1];
    assert [1, 2][..1] == [1] && [1][..0] == [];
    assert RootsOf(GRAMMAR, [1]) == [1];
  }

  lemma OneInserted()
    ensures PDagInsert.Inserted(ONE, 2) == [[0, 0], [0, 0], [2, 1]]
  {
    assert PDagInsert.ZerosIn([0, 0], 1) == 1;
    assert PDagInsert.ZerosIn([0, 0], 2) == 2;
    assert PDagInsert.Free(ONE) == 2;
    assert PDagInsert.Gate(ONE, 2, 0) == [2, 1];
    assert PDagInsert.Blank(2) == [0, 0];
  }

  lemma TwoInserted()
    ensures PDagInsert.Inserted(TWO, 2) == [[0, 0], [0, 0], [0, 0], [3, 2], [1, 4]]
  {
    assert PDagInsert.ZerosIn([0, 0], 1) == 1;
    assert PDagInsert.ZerosIn([0, 0], 2) == 2;
    assert PDagInsert.ZerosIn([0, 1], 1) == 1;
    assert PDagInsert.ZerosIn([0, 1], 2) == 1;
    assert PDagInsert.ZerosBefore(TWO, 1) == 2;
    assert PDagInsert.Free(TWO) == 3;
    assert PDagInsert.Gate(TWO, 3, 0) == [3, 2];
    assert PDagInsert.Gate(TWO, 3, 1) == [1, 4];
    assert PDagInsert.Blank(2) == [0, 0];
  }

  lemma OneLaid()
    ensures Swapped(PDagInsert.Inserted(ONE, 2)) == [[0, 0], [0, 0], [1, 2]]
  {
    hide Swap;
    OneInserted();
    var vs := PDagInsert.Inserted(ONE, 2);
    SwapTwo(vs, [0, 0]);
    SwapTwo(vs, [2, 1]);
  }

  lemma OneSpace()
    ensures SpaceOf(GRAMMAR, [], ONE) == Space(GRAMMAR, [[0, 0], [0, 0], [1, 2]], [[0], [0], [1]], [])
  {
    hide IndexesOf, RootsOf, Connected, Swapped;
    OneLaid();
    Indexes();
    TwoChildren([0, 0]);
    TwoChildren([1, 2]);
    var dag := Swapped(PDagInsert.Inserted(ONE, 2));
    assert PossibleOf(GRAMMAR, dag) == [[0], [0], [1]];
  }

  const LAID: Rows := [[0, 0], [0, 0], [0, 0], [2, 3], [1, 4]]

  lemma TwoLaid()
    ensures Swapped(PDagInsert.Inserted(TWO, 2)) == LAID
  {
    hide Swap;
    TwoInserted();
    var vs := PDagInsert.Inserted(TWO, 2);
    SwapTwo(vs, [0, 0]);
    SwapTwo(vs, [3, 2]);
    SwapTwo(vs, [1, 4]);
  }

  lemma TwoPossible()
    ensures PossibleOf(GRAMMAR, LAID) == [[0], [0], [0], [1, 2], [1]]
  {
    hide IndexesOf, RootsOf, Connected;
    Indexes();
    TwoChildren([0, 0]);
    TwoChildren([2, 3]);
    TwoChildren([1, 4]);
  }

  lemma TwoSpace()
    ensures SpaceOf(GRAMMAR, [], TWO) == Space(GRAMMAR, LAID, [[0], [0], [0], [1, 2], [1]], [])
  {
    hide PossibleOf, Swapped, PDagInsert.Inserted;
    TwoLaid();
    TwoPossible();
  }

  /** The exclusive or of the input with itself, and the input again. */
  const D: seq<nat> := [0, 0, 0, 1, 0]

  lemma OnlyOne()
    ensures Total([1, 1, 1]) == 1
  {
    assert [1, 1, 1][1..] == [1, 1] && [1, 1][1..] == [1] && [1][1..] == [];
    assert Total([1]) == 1 && Total([1, 1]) == 1;
  }

  lemma OneBad(s: Space)
    requires s == Space(GRAMMAR, [[0, 0], [0, 0], [1, 2]], [[0], [0], [1]], [])
    ensures Bad(s, Zeros(3))
  {
    hide OnRecord;
    assert BadGate(s, Zeros(3), 2);
  }

  lemma OneSticks()
    ensures Sticks(SpaceOf(GRAMMAR, [], ONE))
  {
    hide SpaceOf, Bad, Total;
    OneSpace();
    var s := SpaceOf(GRAMMAR, [], ONE);
    assert Radix(s) == [1, 1, 1];
    OnlyOne();
    OneBad(s);
  }

  lemma TwoOffers()
    ensures var s := SpaceOf(GRAMMAR, [], TWO);
            Supported(s) && D in Keep(CoveredOf(s), From(Radix(s), 0))
  {
    hide SpaceOf, ConeAt, Keep, From;
    TwoSpace();
    var s := SpaceOf(GRAMMAR, [], TWO);
    assert Radix(s) == [1, 1, 1, 2, 1];
    forall g: nat ensures !Covers(s, D, g) {
    }
    OfferedExactly(s, D);
  }

  /** The second DAG has candidates, but none of the two is handed on. */
  lemma SecondDagLost()
    ensures FlagsOk(GRAMMAR) && IsDag(ONE, 2) && IsDag(TWO, 2)
    ensures AllOffered(GRAMMAR, [], [ONE, TWO], false) == []
    ensures Concatenated(GRAMMAR, [], [ONE, TWO]) != []
  {
    hide Sticks, SpaceOf, Keep, From, AllOffered, Concatenated;
    OneSticks();
    LostAfterSticking(GRAMMAR, [], ONE, TWO);
    TwoOffers();
  }

  /** Two inputs, and a root that is idempotent but not commutative. */
  const ORDERED: seq<Symbol> :=
    [Symbol(0, false, false, false), Symbol(0, false, false, false), Symbol(2, false, true, true)]

  /** The second input below the left of the root, the first below the right. */
  const REVERSED: seq<nat> := [1, 0, 0]

  lemma OrderedIndexes()
    ensures IndexesOf(ORDERED, 0, 3) == [0, 1] && IndexesOf(ORDERED, 2, 3) == [2]
    ensures RootsOf(ORDERED, [2]) == [2]
  {
    assert IndexesOf(ORDERED, 0, 1) == [0] && IndexesOf(ORDERED, 0, 2) == [0, 1];
    assert IndexesOf(ORDERED, 2, 1) == [] && IndexesOf(ORDERED, 2, 2) == [];
    assert [2][..0] == [];
  }

  lemma OrderedSpace()
    ensures SpaceOf(ORDERED, [], ONE) == Space(ORDERED, [[0, 0], [0, 0], [1, 2]], [[0, 1], [0, 1], [2]], [])
  {
    hide IndexesOf, RootsOf, Connected, Swapped;
    OneLaid();
    OrderedIndexes();
    TwoChildren([0, 0]);
    TwoChildren([1, 2]);
    var dag := Swapped(PDagInsert.Inserted(ONE, 2));
    assert PossibleOf(ORDERED, dag) == [[0, 1], [0, 1], [2]];
  }

  /** The test accepts the reversed inputs, but the run passes them over: at equal inputs it
      jumps from (0, 0) to (0, 1). */
  lemma ReversedLost()
    ensures FlagsOk(ORDERED) && IsDag(ONE, 2)
    ensures var s := SpaceOf(ORDERED, [], ONE);
            && Supported(s) && Syms(s, REVERSED) == [1, 0, 2]
            && REVERSED in Keep(BadOf(s), From(Radix(s), 0)) && REVERSED !in Keep(CoveredOf(s), From(Radix(s), 0))
            && |Offered(s)| < |Accepted(s)|
  {
    hide SpaceOf, Keep, From, ConeAt, Offered, Accepted;
    OrderedSpace();
    var s := SpaceOf(ORDERED, [], ONE);
    assert Radix(s) == [2, 2, 1];
    assert Covers(s, REVERSED, 2);
    forall h: nat ensures !BadGate(s, REVERSED, h) {
    }
    LostShortens(s, REVERSED, 2);
  }
}
