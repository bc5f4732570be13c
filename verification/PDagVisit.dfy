/** Which assignments the odometer stands at: an assignment that a gate covers is met only
    when the duplicate test rejects it. */
module PDagVisit {
  import opened PDag
  import opened PDagLayout
  import opened Numbers
  import opened MixedRadix
  import opened PDagSpace

  // --- Gates over two inputs, in terms of digits ----------------------------

  predicate LeafGate(s: Space, g: nat) {
    g < |s.dag| && LeafPair(s.dag, s.dag[g])
  }

  /** The symbol at a gate. */
  function GateSymbol(s: Space, d: seq<nat>, g: nat): Symbol {
    if SymAt(s, d, g) < |s.symbols| then s.symbols[SymAt(s, d, g)] else Symbol(0, false, false, false)
  }

  /** Where the inputs of such a gate lie, and that they have the same options. */
  ghost predicate Placed(s: Space, g: nat) {
    && g < |s.dag| == |s.possible| && |s.dag[g]| == 2
    && 1 <= s.dag[g][0] && s.dag[g][1] == s.dag[g][0] + 1 && s.dag[g][1] <= g
    && s.possible[s.dag[g][0] - 1] == s.possible[s.dag[g][1] - 1] == LeafSymbols(s.symbols)
    && Ascending(s.possible[s.dag[g][0] - 1])
  }

  lemma PlacedGate(s: Space, g: nat)
    requires Valid(s) && LeafGate(s, g)
    ensures Placed(s, g)
  {
    hide Valid, LeafSymbols, Ascending;
    ValidAt(s, g);
    ValidAt(s, s.dag[g][0] - 1);
    ValidAt(s, s.dag[g][1] - 1);
  }

  /** Symbols of inputs compare as their digits do. */
  lemma ByDigits(s: Space, d: seq<nat>, g: nat)
    requires Valid(s) && IsDigits(Radix(s), d)
    ensures LeafGate(s, g) ==> Placed(s, g) && s.dag[g][1] <= |d| == |s.dag|
    ensures LeafGate(s, g) ==> FittingSymbol(s, g, SymAt(s, d, g))
    ensures LeafGate(s, g) ==>
              (Covers(s, d, g) <==> CoveredInputs(GateSymbol(s, d, g), d[s.dag[g][0] - 1], d[s.dag[g][1] - 1]))
    ensures LeafGate(s, g) ==>
              (BadGate(s, d, g) <==> BadInputs(GateSymbol(s, d, g), d[s.dag[g][0] - 1], d[s.dag[g][1] - 1]))
    ensures !LeafGate(s, g) ==> !Covers(s, d, g) && !BadGate(s, d, g)
  {
    hide Valid, Fitting, LeafSymbols;
    if LeafGate(s, g) {
      PlacedGate(s, g);
      ValidAt(s, g);
      LargerSymbol(s, d, d, g);
      ValidAt(s, s.dag[g][0] - 1);
      ValidAt(s, s.dag[g][1] - 1);
      LargerSymbol(s, d, d, s.dag[g][0] - 1);
      LargerSymbol(s, d, d, s.dag[g][1] - 1);
    } else if OverLeaves(s, d, g) {
      LeafNeighbours(s, d, g);
      ValidAt(s, s.dag[g][0] - 1);
      ValidAt(s, s.dag[g][1] - 1);
      LargerSymbol(s, d, d, s.dag[g][0] - 1);
      LargerSymbol(s, d, d, s.dag[g][1] - 1);
    }
  }

  // --- The assignments the odometer stands at -------------------------------

  /** x has the digits of d from p on. */
  ghost predicate SameFrom(s: Space, d: seq<nat>, p: nat, x: seq<nat>) {
    IsDigits(Radix(s), d) && IsDigits(Radix(s), x) && forall k :: p <= k < |d| ==> x[k] == d[k]
  }

  /** A gate with both inputs below p covers x. */
  ghost predicate CoveredBelow(s: Space, x: seq<nat>, p: nat) {
    exists h: nat :: CoversBelow(s, x, p, h)
  }

  predicate CoversBelow(s: Space, x: seq<nat>, p: nat, h: nat) {
    Covers(s, x, h) && s.dag[h][1] <= p
  }

  /** All smaller assignments with the same digits from p on are covered below p. */
  ghost predicate Earlier(s: Space, d: seq<nat>, p: nat) {
    IsDigits(Radix(s), d) && forall x :: SameFrom(s, d, p, x) && Val(Radix(s), x) < Val(Radix(s), d) ==>
        CoveredBelow(s, x, p)
  }

  /** All assignments with the same digits from p on are. */
  ghost predicate AllBelow(s: Space, d: seq<nat>, p: nat) {
    forall x :: SameFrom(s, d, p, x) ==> CoveredBelow(s, x, p)
  }

  /** If gate g covers d, what comes before d below its inputs is covered there; if moreover
      the test accepts g, everything below its inputs is. */
  ghost predicate OrderlyAt(s: Space, d: seq<nat>, g: nat) {
    Covers(s, d, g) ==>
      && s.dag[g][0] >= 1 && Earlier(s, d, s.dag[g][0] - 1)
      && (!BadGate(s, d, g) ==> AllBelow(s, d, s.dag[g][0] - 1))
  }

  ghost predicate Orderly(s: Space, d: seq<nat>) {
    forall g: nat :: OrderlyAt(s, d, g)
  }

  ghost predicate Calm(s: Space, d: seq<nat>) {
    forall g: nat :: !Covers(s, d, g)
  }

  /** At such an assignment the test rejects the covering gate with the lowest inputs. */
  lemma {:induction false} CoveredIsBad(s: Space, d: seq<nat>, g: nat) returns (h: nat)
    requires Valid(s) && IsDigits(Radix(s), d) && Orderly(s, d) && Covers(s, d, g)
    ensures BadGate(s, d, h)
    decreases if g < |s.dag| && |s.dag[g]| > 0 then s.dag[g][0] else 0
  {
    hide Valid, Covers, BadGate, Earlier;
    ByDigits(s, d, g);
    assert OrderlyAt(s, d, g);
    if BadGate(s, d, g) {
      h := g;
    } else {
      assert SameFrom(s, d, s.dag[g][0] - 1, d);
      var k: nat :| CoversBelow(s, d, s.dag[g][0] - 1, k);
      ByDigits(s, d, k);
      h := CoveredIsBad(s, d, k);
    }
  }

  lemma OrderlyCalm(s: Space, d: seq<nat>)
    requires Valid(s) && IsDigits(Radix(s), d) && Orderly(s, d) && forall g: nat :: !BadGate(s, d, g)
    ensures Calm(s, d)
  {
    hide Valid, Covers, BadGate, Orderly;
    forall g: nat ensures !Covers(s, d, g) {
      if Covers(s, d, g) {
        var h := CoveredIsBad(s, d, g);
      }
    }
  }

  /** What the test accepts at such an assignment is not covered at all. */
  lemma OrderlyDecides(s: Space, d: seq<nat>)
    requires Valid(s) && IsDigits(Radix(s), d) && Orderly(s, d)
    ensures Bad(s, d) <==> Covered(s, d)
  {
    hide Valid, Covers, BadGate, Orderly, OnRecord;
    BadIsCovered(s, d);
    if !Bad(s, d) {
      OrderlyCalm(s, d);
    }
  }

  // --- The start ------------------------------------------------------------

  lemma OrderlyStart(s: Space)
    requires Valid(s) && Radices(Radix(s))
    ensures Orderly(s, Zeros(|s.possible|))
  {
    hide Valid, Covers, BadGate, AllBelow;
    var d := Zeros(|s.possible|);
    forall g: nat ensures OrderlyAt(s, d, g) {
      ByDigits(s, d, g);
      if Covers(s, d, g) {
        ZerosEarlier(s, d, s.dag[g][0] - 1);
      }
    }
  }

  lemma ZerosEarlier(s: Space, d: seq<nat>, p: nat)
    requires IsDigits(Radix(s), d) && p <= |d| && forall k :: 0 <= k < p ==> d[k] == 0
    ensures Earlier(s, d, p)
  {
    hide Val, CoveredBelow;
    forall x | SameFrom(s, d, p, x) ensures Val(Radix(s), d) <= Val(Radix(s), x) {
      assert x[p..] == d[p..];
      ZerosLeast(Radix(s), d, x, p);
    }
  }

  // --- A move ---------------------------------------------------------------

  /** Everything from d up to e is covered by gate h. */
  ghost predicate PassedBy(s: Space, d: seq<nat>, e: seq<nat>, h: nat)
    requires |d| == |s.possible| == |e|
  {
    forall x :: IsDigits(Radix(s), x) && Val(Radix(s), d) <= Val(Radix(s), x) < Val(Radix(s), e) ==> Covers(s, x, h)
  }

  /** The odometer turns at p: one step from an assignment that nothing covers, or the jump
      of a duplicate gate. */
  ghost predicate Turns(s: Space, d: seq<nat>, p: nat) {
    Calm(s, d) || exists h: nat :: JumpGate(s, d, p, h)
  }

  ghost predicate JumpGate(s: Space, d: seq<nat>, p: nat, h: nat) {
    BadGate(s, d, h) && p + 1 == s.dag[h][1]
  }

  lemma JumpPasses(s: Space, d: seq<nat>, p: nat, e: seq<nat>, h: nat)
    requires Valid(s) && Radices(Radix(s)) && IsDigits(Radix(s), d) && IsDigits(Radix(s), e)
    requires Bumped(Radix(s), d, p, e, true) && JumpGate(s, d, p, h)
    ensures PassedBy(s, d, e, h) && LeafGate(s, h) && Placed(s, h)
  {
    hide Valid, Val, Total, BadGate, Covers, LeafGate, Bumped;
    ByDigits(s, d, h);
    GateJump(s, d, h);
    BumpedValue(Radix(s), d, p, e, true);
    forall x | IsDigits(Radix(s), x) &&
        Val(Radix(s), d) <= Val(Radix(s), x) < Val(Radix(s), e) ensures Covers(s, x, h) {
      WithinOf(s, d, p, x);
    }
  }

  /** A gate whose digits stay is judged the same. */
  lemma SameGate(s: Space, d: seq<nat>, e: seq<nat>, g: nat)
    requires Valid(s) && IsDigits(Radix(s), d) && IsDigits(Radix(s), e) && LeafGate(s, g)
    requires |s.dag[g]| == 2 && 1 <= s.dag[g][0] <= |d| && 1 <= s.dag[g][1] <= |d| && g < |d|
    requires e[g] == d[g] && e[s.dag[g][0] - 1] == d[s.dag[g][0] - 1] && e[s.dag[g][1] - 1] == d[s.dag[g][1] - 1]
    ensures Covers(s, d, g) <==> Covers(s, e, g)
    ensures BadGate(s, d, g) <==> BadGate(s, e, g)
  {
    hide Valid, Covers, BadGate, LeafGate;
    ByDigits(s, d, g);
    ByDigits(s, e, g);
  }

  /** Below the digit that went up everything is zero. */
  lemma MoveBelow(s: Space, d: seq<nat>, p: nat, e: seq<nat>, t: nat, g: nat)
    requires Valid(s) && IsDigits(Radix(s), e) && CarriedTo(Radix(s), d, p, e, t)
    requires Covers(s, e, g) && s.dag[g][0] <= t
    ensures OrderlyAt(s, e, g)
  {
    hide Valid, Covers, BadGate, AllBelow;
    ByDigits(s, e, g);
    ZerosEarlier(s, e, s.dag[g][0] - 1);
  }

  /** Above it the gate is as before, and what came in between is covered further down. */
  lemma MoveAbove(s: Space, d: seq<nat>, p: nat, e: seq<nat>, t: nat, g: nat)
    requires Valid(s) && Radices(Radix(s)) && IsDigits(Radix(s), d) && IsDigits(Radix(s), e)
    requires OrderlyAt(s, d, g) && CarriedTo(Radix(s), d, p, e, t) && Bumped(Radix(s), d, p, e, true) && Turns(s, d, p)
    requires Covers(s, e, g) && s.dag[g][0] > t + 1
    ensures OrderlyAt(s, e, g)
  {
    hide Valid, Covers, BadGate, AllBelow, LeafGate, Val, Bumped, CoveredBelow;
    ByDigits(s, e, g);
    SameGate(s, d, e, g);
    var q := s.dag[g][0] - 1;
    var h: nat :| JumpGate(s, d, p, h);
    JumpPasses(s, d, p, e, h);
    forall x | SameFrom(s, e, q, x) && Val(Radix(s), x) < Val(Radix(s), e) ensures CoveredBelow(s, x, q) {
      assert SameFrom(s, d, q, x);
      if Val(Radix(s), x) >= Val(Radix(s), d) {
        BelowBy(s, x, q, h);
      }
    }
    AboveStays(s, d, e, q);
  }

  lemma BelowBy(s: Space, x: seq<nat>, q: nat, h: nat)
    requires Covers(s, x, h) && s.dag[h][1] <= q
    ensures CoveredBelow(s, x, q)
  {
    assert CoversBelow(s, x, q, h);
  }

  lemma AboveStays(s: Space, d: seq<nat>, e: seq<nat>, q: nat)
    requires IsDigits(Radix(s), d) && IsDigits(Radix(s), e) && forall k :: q <= k < |d| ==> e[k] == d[k]
    ensures AllBelow(s, d, q) ==> AllBelow(s, e, q)
  {
    hide CoveredBelow;
    forall x | SameFrom(s, e, q, x) ensures SameFrom(s, d, q, x) {
    }
  }

  /** When the digit that went up is the lower input of a gate the test accepts, everything
      below it was passed over or is covered there. */
  lemma MoveHere(s: Space, d: seq<nat>, p: nat, e: seq<nat>, t: nat, g: nat)
    requires Valid(s) && Radices(Radix(s)) && IsDigits(Radix(s), d) && IsDigits(Radix(s), e)
    requires OrderlyAt(s, d, g) && CarriedTo(Radix(s), d, p, e, t) && Bumped(Radix(s), d, p, e, true) && Turns(s, d, p)
    requires Covers(s, e, g) && s.dag[g][0] == t + 1
    ensures OrderlyAt(s, e, g)
  {
    hide Valid, Covers, BadGate, LeafGate, Val, Bumped, CoveredBelow, Fitting, LeafSymbols;
    ByDigits(s, e, g);
    ZerosEarlier(s, e, t);
    if !BadGate(s, e, g) {
      ByDigits(s, d, g);
      assert SymAt(s, d, g) == SymAt(s, e, g);
      assert Covers(s, d, g);
      var h: nat :| JumpGate(s, d, p, h);
      JumpPasses(s, d, p, e, h);
      JumpIsLower(s, p, t, g, h);
      forall x | SameFrom(s, e, t, x) ensures CoveredBelow(s, x, t) {
        LoweredCovered(s, d, e, t, g, h, x);
      }
    }
  }

  lemma JumpIsLower(s: Space, p: nat, t: nat, g: nat, h: nat)
    requires Valid(s) && LeafGate(s, g) && LeafGate(s, h) && s.dag[g][0] == t + 1
    requires |s.dag[h]| == 2 && p + 1 == s.dag[h][1] && p <= t
    ensures s.dag[h][1] <= t
  {
    assert ApartAt(s.dag, g, h);
    assert LaidRow(s.dag, g);
  }

  lemma LoweredCovered(s: Space, d: seq<nat>, e: seq<nat>, t: nat, g: nat, h: nat, x: seq<nat>)
    requires Valid(s) && IsDigits(Radix(s), d) && IsDigits(Radix(s), e) && t < |d| && e[t] == d[t] + 1
    requires forall k :: t < k < |d| ==> e[k] == d[k]
    requires LeafGate(s, g) && s.dag[g][0] == t + 1 && Earlier(s, d, t) && PassedBy(s, d, e, h)
    requires LeafGate(s, h) && s.dag[h][1] <= t && SameFrom(s, e, t, x)
    ensures CoveredBelow(s, x, t)
  {
    hide Valid, Covers, Val, LeafGate;
    var x' := x[t := d[t]];
    ValBelow(Radix(s), x', e, t);
    assert SameFrom(s, d, t, x');
    if Val(Radix(s), x') >= Val(Radix(s), d) {
      BelowBy(s, x', t, h);
    }
    var k: nat :| CoversBelow(s, x', t, k);
    ByDigits(s, x', k);
    NotInput(s, g, k);
    SameGate(s, x', x, k);
    BelowBy(s, x, t, k);
  }

  lemma NotInput(s: Space, g: nat, k: nat)
    requires Valid(s) && LeafGate(s, g) && LeafGate(s, k)
    ensures s.dag[g][0] != k + 1
  {
  }

  /** Every move keeps this. */
  lemma MoveOrderly(s: Space, d: seq<nat>, p: nat, e: seq<nat>)
    requires Valid(s) && Radices(Radix(s)) && IsDigits(Radix(s), d) && IsDigits(Radix(s), e)
    requires Orderly(s, d) && Bumped(Radix(s), d, p, e, true) && Turns(s, d, p)
    ensures Orderly(s, e)
  {
    hide Valid, Covers, OrderlyAt, Turns, Bumped, CarriedTo;
    var t := BumpedShape(Radix(s), d, p, e);
    forall g: nat ensures OrderlyAt(s, e, g) {
      assert OrderlyAt(s, d, g);
      if !Covers(s, e, g) {
        NotCovered(s, e, g);
      } else {
        ByDigits(s, e, g);
        if s.dag[g][0] <= t {
          MoveBelow(s, d, p, e, t, g);
        } else if s.dag[g][0] == t + 1 {
          MoveHere(s, d, p, e, t, g);
        } else {
          MoveAbove(s, d, p, e, t, g);
        }
      }
    }
  }

  lemma NotCovered(s: Space, e: seq<nat>, g: nat)
    requires !Covers(s, e, g)
    ensures OrderlyAt(s, e, g)
  {
  }
}
