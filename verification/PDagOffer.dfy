/** What a run hands on: the assignments that are not covered, and what becomes of them over
    a list of DAGs. */
module PDagOffer {
  import opened PDag
  import PDagInsert
  import opened PDagLayout
  import opened Numbers
  import opened MixedRadix
  import opened PDagSpace
  import opened PDagVisit

  /** A DAG with the symbols of its vertices, as handed to the workers. */
  datatype Candidate = Candidate(pdag: Rows, assignments: seq<nat>)

  function Candidates(s: Space, ds: seq<seq<nat>>): (cs: seq<Candidate>)
    ensures |cs| == |ds| && forall i :: 0 <= i < |ds| ==> cs[i] == Candidate(s.dag, Syms(s, ds[i]))
  {
    seq(|ds|, i requires 0 <= i < |ds| => Candidate(s.dag, Syms(s, ds[i])))
  }

  /** The space of a DAG after initialisation. */
  function LaidOut(symbols: seq<Symbol>, duplicated: seq<seq<nat>>, g: Rows, fanin: nat): Space {
    var dag := Swapped(PDagInsert.Inserted(g, fanin));
    Space(symbols, dag, PossibleOf(symbols, dag), duplicated)
  }

  /** With the fan-in the duplicate test is made for. */
  function SpaceOf(symbols: seq<Symbol>, duplicated: seq<seq<nat>>, g: Rows): Space {
    LaidOut(symbols, duplicated, g, 2)
  }

  predicate Recorded(duplicated: seq<seq<nat>>) {
    forall c :: 0 <= c < |duplicated| ==> |duplicated[c]| == |SUBGRAPH|
  }

  lemma SpaceValid(symbols: seq<Symbol>, duplicated: seq<seq<nat>>, g: Rows)
    requires IsDag(g, 2) && FlagsOk(symbols) && Recorded(duplicated)
    ensures Valid(SpaceOf(symbols, duplicated, g))
    ensures SpaceOf(symbols, duplicated, g) == LaidOut(symbols, duplicated, g, 2)
  {
    hide FlagsOk, Fitting, PDagInsert.Inserted, Laid, Apart;
    var s := SpaceOf(symbols, duplicated, g);
    InitialLayout(g);
    InputsApart(g);
    forall i | 0 <= i < |s.dag| ensures Fitting(s, i) {
      assert FullRow(s.dag, i) by { FullOfLaid(s.dag, i); }
      PossibleFits(s, i);
    }
  }

  lemma FullOfLaid(dag: Rows, i: nat)
    requires Laid(dag) && i < |dag|
    ensures FullRow(dag, i) && Topological(dag)
  {
    assert LaidRow(dag, i);
    forall g | 0 <= g < |dag| ensures RowBelow(dag, g) {
      assert LaidRow(dag, g);
    }
  }

  // --- What a run hands on --------------------------------------------------

  predicate Supported(s: Space) {
    Radices(Radix(s))
  }

  /** The candidates of one DAG: every assignment that is not covered, by value. */
  ghost function Offered(s: Space): seq<Candidate> {
    if Supported(s) then Candidates(s, Keep(CoveredOf(s), From(Radix(s), 0))) else []
  }

  /** The only assignment is a duplicate: the jump leaves a request for the next DAG
      behind. */
  ghost predicate Sticks(s: Space) {
    Supported(s) && Total(Radix(s)) == 1 && Bad(s, Zeros(|s.possible|))
  }

  /** The candidates of a list of DAGs; `skip` is a request left behind. */
  ghost function AllOffered(symbols: seq<Symbol>, duplicated: seq<seq<nat>>, pdags: seq<Rows>,
      skip: bool): seq<Candidate> {
    if pdags == [] then []
    else
      var s := SpaceOf(symbols, duplicated, pdags[0]);
      (if skip then [] else Offered(s)) + AllOffered(symbols, duplicated, pdags[1..], !skip && Sticks(s))
  }

  /** No gate from g on is a duplicate. */
  ghost predicate FineFrom(s: Space, d: seq<nat>, g: nat) {
    forall h: nat :: g <= h ==> !BadGate(s, d, h)
  }

  /** Where the jump starts: at the upper child of the last duplicate gate, or, with no
      such gate, at the lowest vertex of the last cone on record. */
  ghost predicate JumpsAt(s: Space, d: seq<nat>, p: nat) {
    if FineFrom(s, d, 0) then exists j: nat, c: nat :: BadCone(s, d, j, c) && ConeStart(s, j, p) && NoneAbove(s, d, j)
    else exists g: nat :: JumpGate(s, d, p, g) && FineFrom(s, d, g + 1)
  }

  /** No cone of a vertex after j is on record. */
  ghost predicate NoneAbove(s: Space, d: seq<nat>, j: nat) {
    forall i: nat, c: nat :: j < i ==> !BadCone(s, d, i, c)
  }

  ghost predicate ConeStart(s: Space, j: nat, p: nat) {
    |ConeList(s.dag, j)| > 0 && ConeList(s.dag, j)[0] == p
  }

  /** The duplicate found at d takes the odometer to e, or over the end. */
  ghost predicate Jumped(s: Space, d: seq<nat>, e: seq<nat>, more: bool) {
    && |d| == |s.possible| && IsDigits(Radix(s), d) && Bad(s, d)
    && exists p: nat :: JumpsAt(s, d, p) && SkipsOnlyCovered(s, d, p) && Bumped(Radix(s), d, p, e, more)
  }

  lemma MakeJumped(s: Space, d: seq<nat>, p: nat, e: seq<nat>, more: bool)
    requires IsDigits(Radix(s), d) && Bad(s, d) && JumpsAt(s, d, p)
    requires SkipsOnlyCovered(s, d, p) && Bumped(Radix(s), d, p, e, more)
    ensures Jumped(s, d, e, more)
  {
  }

  lemma AfterJump(s: Space, d: seq<nat>, e: seq<nat>, more: bool)
    requires Supported(s) && Jumped(s, d, e, more)
    ensures IsDigits(Radix(s), e)
    ensures more ==> Val(Radix(s), d) < Val(Radix(s), e) < Total(Radix(s))
    ensures Keep(CoveredOf(s), From(Radix(s), Val(Radix(s), d))) ==
            if more then Keep(CoveredOf(s), From(Radix(s), Val(Radix(s), e))) else []
    ensures !more ==> e == Zeros(|s.possible|)
  {
    hide Val, Total, Bad, Keep, From, SkipsOnlyCovered, JumpsAt;
    var p: nat :| JumpsAt(s, d, p) && SkipsOnlyCovered(s, d, p) && Bumped(Radix(s), d, p, e, more);
    JumpKeeps(s, d, p, e, more);
  }

  // --- A run over one DAG ---------------------------------------------------

  /** What was handed on, and what is still to come from assignment d on, is what the
      DAG offers. */
  ghost predicate Progress(s: Space, done: seq<Candidate>, d: seq<nat>) {
    && Valid(s) && Supported(s) && IsDigits(Radix(s), d) && Orderly(s, d)
    && done + Candidates(s, Keep(CoveredOf(s), From(Radix(s), Val(Radix(s), d)))) == Offered(s)
  }

  lemma RunStarts(s: Space)
    requires Valid(s) && Supported(s)
    ensures Progress(s, [], Zeros(|s.possible|))
  {
    hide Valid, Orderly;
    OrderlyStart(s);
    ValZeros(Radix(s));
  }

  /** An assignment that passes the test is not covered; it is handed on and the next one
      comes up. */
  lemma StepOffered(s: Space, done: seq<Candidate>, d: seq<nat>, e: seq<nat>, more: bool)
    requires Progress(s, done, d) && !Bad(s, d) && Bumped(Radix(s), d, 0, e, more)
    ensures IsDigits(Radix(s), e)
    ensures more ==> Progress(s, done + [Candidate(s.dag, Syms(s, d))], e)
    ensures more ==> Val(Radix(s), d) < Val(Radix(s), e) < Total(Radix(s))
    ensures !more ==> done + [Candidate(s.dag, Syms(s, d))] == Offered(s) && !Sticks(s)
  {
    hide Val, Total, Bad, Covered, Keep, From, Offered, Valid, Orderly, Turns, Calm;
    OrderlyDecides(s, d);
    StepKeeps(s, d, e, more);
    if more {
      assert Turns(s, d, 0) by { PassedIsCalm(s, d); }
      MoveOrderly(s, d, 0, e);
    }
    var rest := if more then Keep(CoveredOf(s), From(Radix(s), Val(Radix(s), e))) else [];
    assert Candidates(s, [d] + rest) == [Candidate(s.dag, Syms(s, d))] + Candidates(s, rest);
    assert done + ([Candidate(s.dag, Syms(s, d))] + Candidates(s, rest)) ==
           done + [Candidate(s.dag, Syms(s, d))] + Candidates(s, rest);
    if Sticks(s) {
      OnlyZeros(s, d);
    }
  }

  lemma PassedIsCalm(s: Space, d: seq<nat>)
    requires Valid(s) && IsDigits(Radix(s), d) && Orderly(s, d) && !Bad(s, d)
    ensures Turns(s, d, 0)
  {
    hide Valid, Orderly, BadGate, Covers, OnRecord;
    OrderlyCalm(s, d);
  }

  lemma OnlyZeros(s: Space, d: seq<nat>)
    requires Supported(s) && IsDigits(Radix(s), d) && Total(Radix(s)) == 1
    ensures d == Zeros(|s.possible|)
  {
    hide Val, Total;
    ValBound(Radix(s), d);
    ValZeros(Radix(s));
    ValInjective(Radix(s), d, Zeros(|s.possible|));
  }

  /** A jump from a duplicate leaves out nothing that is offered. */
  lemma JumpOffered(s: Space, done: seq<Candidate>, d: seq<nat>, e: seq<nat>, more: bool)
    requires Progress(s, done, d) && Jumped(s, d, e, more)
    ensures IsDigits(Radix(s), e)
    ensures more ==> Progress(s, done, e) && Val(Radix(s), d) < Val(Radix(s), e) < Total(Radix(s))
    ensures !more ==> done == Offered(s)
  {
    hide Val, Total, Bad, Keep, From, Offered, Jumped, Valid, Orderly;
    AfterJump(s, d, e, more);
    assert Candidates(s, []) == [];
    if more {
      JumpOrderly(s, d, e);
    }
  }

  lemma JumpOrderly(s: Space, d: seq<nat>, e: seq<nat>)
    requires Valid(s) && Supported(s) && IsDigits(Radix(s), d) && IsDigits(Radix(s), e) && Orderly(s, d)
    requires Jumped(s, d, e, true)
    ensures Orderly(s, e)
  {
    hide Valid, Orderly, SkipsOnlyCovered, BadGate, Bumped, JumpsAt;
    var p: nat :| JumpsAt(s, d, p) && SkipsOnlyCovered(s, d, p) && Bumped(Radix(s), d, p, e, true);
    JumpTurns(s, d, p);
    MoveOrderly(s, d, p, e);
  }

  lemma JumpTurns(s: Space, d: seq<nat>, p: nat)
    requires Valid(s) && IsDigits(Radix(s), d) && Orderly(s, d) && JumpsAt(s, d, p)
    ensures Turns(s, d, p)
  {
    hide Valid, Orderly, BadGate, Covers, BadCone;
    if FineFrom(s, d, 0) {
      OrderlyCalm(s, d);
    } else {
      var h: nat :| JumpGate(s, d, p, h) && FineFrom(s, d, h + 1);
    }
  }

  /** After a jump over the end the odometer is advanced once more: that goes over the
      end again just when there is only one assignment. */
  lemma WrapAgain(s: Space, d: seq<nat>, z: seq<nat>, e: seq<nat>, more: bool)
    requires Supported(s) && Jumped(s, d, z, false) && Bumped(Radix(s), z, 0, e, more)
    ensures IsDigits(Radix(s), e)
    ensures more ==> !Sticks(s)
    ensures !more ==> Sticks(s)
  {
    hide Val, Total, Bad, SkipsOnlyCovered;
    var r := Radix(s);
    assert z == Zeros(|s.possible|);
    ValZeros(r);
    assert r[0..] == r && z[0..] == z && e[0..] == e;
    if more {
      ValBound(r, e);
    } else {
      OnlyZeros(s, d);
    }
  }

  /** What a DAG offers is listed without repetition, by value, and is exactly what is not
      covered. */
  lemma OfferedExactly(s: Space, d: seq<nat>)
    requires Supported(s)
    ensures Offered(s) == Candidates(s, Keep(CoveredOf(s), From(Radix(s), 0)))
    ensures Rising(Radix(s), Keep(CoveredOf(s), From(Radix(s), 0)))
    ensures d in Keep(CoveredOf(s), From(Radix(s), 0)) <==> IsDigits(Radix(s), d) && !Covered(s, d)
  {
    hide Val, Covered, Keep, From;
    KeepRising(Radix(s), CoveredOf(s), 0);
    KeepMembers(CoveredOf(s), From(Radix(s), 0), d);
    FromMembers(Radix(s), 0, d);
  }

  /** Without a request left behind every DAG offers all it has. */
  lemma {:induction false} NothingLost(symbols: seq<Symbol>, duplicated: seq<seq<nat>>, pdags: seq<Rows>)
    requires forall k :: 0 <= k < |pdags| - 1 ==> !Sticks(SpaceOf(symbols, duplicated, pdags[k]))
    ensures AllOffered(symbols, duplicated, pdags, false) == Concatenated(symbols, duplicated, pdags)
  {
    hide Sticks, SpaceOf, Offered;
    if |pdags| == 1 {
      assert pdags[1..] == [];
    } else if |pdags| > 1 {
      assert !Sticks(SpaceOf(symbols, duplicated, pdags[0]));
      forall k | 0 <= k < |pdags[1..]| - 1 ensures !Sticks(SpaceOf(symbols, duplicated, pdags[1..][k])) {
        var k' := k + 1;
        assert !Sticks(SpaceOf(symbols, duplicated, pdags[k']));
      }
      NothingLost(symbols, duplicated, pdags[1..]);
    }
  }

  ghost function Concatenated(symbols: seq<Symbol>, duplicated: seq<seq<nat>>, pdags: seq<Rows>): seq<Candidate> {
    if pdags == [] then []
    else Offered(SpaceOf(symbols, duplicated, pdags[0])) + Concatenated(symbols, duplicated, pdags[1..])
  }

  lemma SameTail<T>(front: seq<T>, x: seq<T>, y: seq<T>)
    ensures front + x == front + y <==> x == y
  {
    if front + x == front + y {
      assert x == (front + x)[|front|..] && y == (front + y)[|front|..];
    }
  }

  /** The DAG after one whose only assignment is a duplicate is passed over, whatever it
      has to offer. */
  lemma LostAfterSticking(symbols: seq<Symbol>, duplicated: seq<seq<nat>>, g: Rows, h: Rows)
    requires Sticks(SpaceOf(symbols, duplicated, g))
    ensures AllOffered(symbols, duplicated, [g, h], false) == []
    ensures Concatenated(symbols, duplicated, [g, h]) == Offered(SpaceOf(symbols, duplicated, h))
  {
    hide SpaceOf, Bad, Covered, Candidates;
    var s := SpaceOf(symbols, duplicated, g);
    var r := Radix(s);
    assert [g, h][1..] == [h] && [h][1..] == [];
    OfferNext(symbols, duplicated, [g, h], false);
    OfferNext(symbols, duplicated, [h], true);
    assert Concatenated(symbols, duplicated, [h]) == Offered(SpaceOf(symbols, duplicated, h)) + [];
    assert DigitsOf(r, 0) == Zeros(|s.possible|) by {
      OnlyZeros(s, DigitsOf(r, 0));
    }
    BadIsCovered(s, Zeros(|s.possible|));
    KeepHead(r, CoveredOf(s), 0);
    FromEnd(r, 1);
    assert Candidates(s, []) == [];
  }

  lemma FirstBelow(s: Space)
    requires Supported(s)
    ensures Val(Radix(s), Zeros(|s.possible|)) < Total(Radix(s))
  {
    ValBound(Radix(s), Zeros(|s.possible|));
  }

  lemma OfferNext(symbols: seq<Symbol>, duplicated: seq<seq<nat>>, pdags: seq<Rows>, skip: bool)
    requires |pdags| > 0
    ensures var s := SpaceOf(symbols, duplicated, pdags[0]);
            && AllOffered(symbols, duplicated, pdags, skip) ==
               (if skip then [] else Offered(s)) + AllOffered(symbols, duplicated, pdags[1..], !skip && Sticks(s))
            && (!Supported(s) ==> Offered(s) == [] && !Sticks(s))
  {
  }

  lemma OfferNone(symbols: seq<Symbol>, duplicated: seq<seq<nat>>, skip: bool)
    ensures AllOffered(symbols, duplicated, [], skip) == []
  {
  }
}
