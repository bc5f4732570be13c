/** When a run hands on everything its duplicate test accepts, and when a list of DAGs loses
    candidates, in terms of the grammar and the DAGs alone. */
module PDagLoss {
  import opened PDag
  import opened PDagLayout
  import opened Numbers
  import opened MixedRadix
  import opened PDagSpace
  import opened PDagVisit
  import opened PDagOffer

  // --- Lists of what is kept ------------------------------------------------

  lemma {:induction false} KeepSame(bad: seq<nat> -> bool, worse: seq<nat> -> bool, ds: seq<seq<nat>>)
    requires forall d :: d in ds ==> (bad(d) <==> worse(d))
    ensures Keep(bad, ds) == Keep(worse, ds)
  {
    if ds != [] {
      KeepSame(bad, worse, ds[1..]);
      assert ds[0] in ds;
    }
  }

  lemma {:induction false} KeepFewer(bad: seq<nat> -> bool, worse: seq<nat> -> bool, ds: seq<seq<nat>>)
    requires forall d :: bad(d) ==> worse(d)
    ensures |Keep(worse, ds)| <= |Keep(bad, ds)|
    ensures (exists d :: d in ds && worse(d) && !bad(d)) ==> |Keep(worse, ds)| < |Keep(bad, ds)|
  {
    if ds != [] {
      KeepFewer(bad, worse, ds[1..]);
      if d :| d in ds && worse(d) && !bad(d) {
        assert d == ds[0] || d in ds[1..];
      }
    }
  }

  // --- Pairs of inputs ------------------------------------------------------

  /** At most one symbol is for inputs. */
  predicate FewLeaves(s: Space) {
    |LeafSymbols(s.symbols)| <= 1
  }

  /** Option c of vertex g. */
  predicate IsOption(s: Space, g: nat, c: nat) {
    g < |s.possible| && c < |s.possible[g]| && s.possible[g][c] < |s.symbols|
  }

  /** Above two inputs, what is idempotent is commutative. */
  ghost predicate PairsCommute(s: Space) {
    forall g: nat, c: nat :: !Lossy(s, g, c)
  }

  /** Option c of a gate over two inputs is idempotent but not commutative. */
  predicate Lossy(s: Space, g: nat, c: nat) {
    && LeafGate(s, g) && IsOption(s, g, c)
    && s.symbols[s.possible[g][c]].idempotent && !s.symbols[s.possible[g][c]].commutative
  }

  /** Vertex i is the upper input of a gate. */
  ghost predicate IsUpper(s: Space, i: nat) {
    exists h: nat :: UpperOf(s, h, i)
  }

  predicate UpperOf(s: Space, h: nat, i: nat) {
    LeafGate(s, h) && s.dag[h][1] == i + 1
  }

  /** Inputs of different gates are different, and gates are no inputs. */
  lemma Positions(s: Space, h: nat)
    requires Valid(s) && LeafGate(s, h)
    ensures Placed(s, h)
    ensures !IsUpper(s, s.dag[h][0] - 1) && IsUpper(s, s.dag[h][1] - 1)
    ensures !LeafGate(s, s.dag[h][0] - 1) && !LeafGate(s, s.dag[h][1] - 1)
  {
    hide Valid, Fitting, LeafSymbols;
    PlacedGate(s, h);
    var i := s.dag[h][0] - 1;
    forall k: nat ensures !UpperOf(s, k, i) {
      if UpperOf(s, k, i) {
        ApartFrom(s, h, k);
      }
    }
    assert UpperOf(s, h, s.dag[h][1] - 1);
    NotAGate(s, s.dag[h][0] - 1);
    NotAGate(s, s.dag[h][1] - 1);
  }

  lemma NotAGate(s: Space, i: nat)
    requires i < |s.dag| && IsLeafNode(s.dag[i])
    ensures !LeafGate(s, i)
  {
  }

  predicate ApartHere(s: Space, g: nat, h: nat) {
    && g < |s.dag| && h < |s.dag| && |s.dag[g]| == 2 && |s.dag[h]| == 2
    && s.dag[g][0] != s.dag[h][0] && s.dag[g][0] != s.dag[h][1]
    && s.dag[g][1] != s.dag[h][0] && s.dag[g][1] != s.dag[h][1]
  }

  lemma ApartFrom(s: Space, g: nat, h: nat)
    requires Valid(s) && LeafGate(s, g) && LeafGate(s, h)
    ensures g != h ==> ApartHere(s, g, h)
    ensures Placed(s, g)
  {
    assert ApartAt(s.dag, g, h);
    PlacedGate(s, g);
  }

  // --- The test and the run -------------------------------------------------

  /** What the duplicate test accepts. */
  ghost function Accepted(s: Space): seq<Candidate> {
    if Supported(s) then Candidates(s, Keep(BadOf(s), From(Radix(s), 0))) else []
  }

  /** Then every covered assignment is one the test rejects. */
  lemma CoveredOnlyBad(s: Space, d: seq<nat>)
    requires Valid(s) && IsDigits(Radix(s), d) && (FewLeaves(s) || PairsCommute(s))
    ensures Covered(s, d) <==> Bad(s, d)
  {
    hide Valid, BadGate, Covers, OnRecord, FewLeaves, PairsCommute;
    BadIsCovered(s, d);
    forall g: nat | Covers(s, d, g) ensures BadGate(s, d, g) {
      ByDigits(s, d, g);
      SameVerdict(s, d, g);
    }
  }

  lemma SameVerdict(s: Space, d: seq<nat>, g: nat)
    requires Valid(s) && IsDigits(Radix(s), d) && LeafGate(s, g) && (FewLeaves(s) || PairsCommute(s))
    requires Placed(s, g) && s.dag[g][1] <= |d|
    requires CoveredInputs(GateSymbol(s, d, g), d[s.dag[g][0] - 1], d[s.dag[g][1] - 1])
    ensures BadInputs(GateSymbol(s, d, g), d[s.dag[g][0] - 1], d[s.dag[g][1] - 1])
  {
    hide Valid, LeafSymbols;
    ByDigits(s, d, g);
    if PairsCommute(s) {
      assert !Lossy(s, g, d[g]);
    }
  }

  lemma NothingPassed(s: Space)
    requires Valid(s) && (FewLeaves(s) || PairsCommute(s))
    ensures Offered(s) == Accepted(s)
  {
    hide Valid, Covered, Bad, FewLeaves, PairsCommute, From, Keep;
    if Supported(s) {
      forall d | d in From(Radix(s), 0) ensures CoveredOf(s)(d) <==> BadOf(s)(d) {
        FromMembers(Radix(s), 0, d);
        CoveredOnlyBad(s, d);
      }
      KeepSame(CoveredOf(s), BadOf(s), From(Radix(s), 0));
    }
  }

  /** An assignment the test accepts and the run passes over: descending inputs at gate g,
      ascending ones everywhere else. */
  ghost function Passed(s: Space, g: nat, c: nat): (x: seq<nat>)
    requires Placed(s, g)
    ensures |x| == |s.possible|
  {
    seq(|s.possible|, i requires 0 <= i < |s.possible| =>
      if i == g then c
      else if i == s.dag[g][0] - 1 then 1
      else if i == s.dag[g][1] - 1 then 0
      else if IsUpper(s, i) then 1 else 0)
  }

  lemma PassedIsDigits(s: Space, g: nat, c: nat)
    requires Valid(s) && Supported(s) && LeafGate(s, g) && IsOption(s, g, c) && !FewLeaves(s) && Placed(s, g)
    ensures IsDigits(Radix(s), Passed(s, g, c))
  {
    hide Valid, LeafSymbols, LeafGate;
    var x := Passed(s, g, c);
    forall i | 0 <= i < |x| ensures x[i] < Radix(s)[i] {
      if i != g && IsUpper(s, i) {
        var h: nat :| UpperOf(s, h, i);
        PlacedGate(s, h);
      }
    }
  }

  lemma PassedIsLost(s: Space, g: nat, c: nat)
    requires Valid(s) && Supported(s) && Lossy(s, g, c) && !FewLeaves(s) && Placed(s, g)
    ensures var x := Passed(s, g, c);
            IsDigits(Radix(s), x) && Covers(s, x, g) && forall h: nat :: !BadGate(s, x, h)
  {
    hide Valid, BadGate, Covers, LeafGate, IsUpper, LeafSymbols;
    var x := Passed(s, g, c);
    PassedIsDigits(s, g, c);
    ByDigits(s, x, g);
    forall h: nat ensures !BadGate(s, x, h) {
      ByDigits(s, x, h);
      if LeafGate(s, h) && h != g {
        Positions(s, h);
        Positions(s, g);
        ApartFrom(s, g, h);
      }
    }
  }

  /** The run hands on all that the test accepts if and only if at most one symbol is for
      inputs, or above two inputs every idempotent symbol is commutative. */
  lemma RunExactly(s: Space)
    requires Valid(s) && Supported(s) && s.duplicated == []
    ensures Offered(s) == Accepted(s) <==> FewLeaves(s) || PairsCommute(s)
  {
    hide Valid, BadGate, Covers, LeafGate, From, Keep, FewLeaves;
    if FewLeaves(s) || PairsCommute(s) {
      NothingPassed(s);
    } else {
      var g: nat, c: nat :| Lossy(s, g, c);
      PlacedGate(s, g);
      PassedIsLost(s, g, c);
      LostShortens(s, Passed(s, g, c), g);
    }
  }

  lemma LostShortens(s: Space, x: seq<nat>, g: nat)
    requires Supported(s) && s.duplicated == [] && IsDigits(Radix(s), x)
    requires Covers(s, x, g) && forall h: nat :: !BadGate(s, x, h)
    ensures x in Keep(BadOf(s), From(Radix(s), 0)) && x !in Keep(CoveredOf(s), From(Radix(s), 0))
    ensures |Offered(s)| < |Accepted(s)|
  {
    hide BadGate, Covers, From, Keep, ConeAt;
    NoneOnRecord(s, x);
    CoveredByGate(s, x, g);
    FromMembers(Radix(s), 0, x);
    forall d ensures BadOf(s)(d) ==> CoveredOf(s)(d) {
      BadIsCovered(s, d);
    }
    KeepFewer(BadOf(s), CoveredOf(s), From(Radix(s), 0));
    KeepMembers(BadOf(s), From(Radix(s), 0), x);
    KeepMembers(CoveredOf(s), From(Radix(s), 0), x);
  }

  lemma NoneOnRecord(s: Space, x: seq<nat>)
    requires s.duplicated == []
    ensures !OnRecord(s, x)
  {
    hide ConeAt;
  }

  // --- DAGs that leave a request behind -------------------------------------

  /** Every vertex has one option. */
  predicate Single(s: Space) {
    forall i :: 0 <= i < |s.possible| ==> |s.possible[i]| == 1
  }

  /** Some gate over two inputs has nothing but idempotent symbols to take. */
  ghost predicate SomeIdempotent(s: Space) {
    exists g: nat :: AllIdempotent(s, g)
  }

  ghost predicate AllIdempotent(s: Space, g: nat) {
    LeafGate(s, g) && forall c: nat :: !Plain(s, g, c)
  }

  /** Option c of vertex g is not idempotent. */
  predicate Plain(s: Space, g: nat, c: nat) {
    IsOption(s, g, c) && !s.symbols[s.possible[g][c]].idempotent
  }

  lemma {:induction false} TotalOne(r: seq<nat>)
    requires Radices(r)
    ensures Total(r) == 1 <==> forall i :: 0 <= i < |r| ==> r[i] == 1
  {
    if r != [] {
      TotalOne(r[1..]);
      TotalPositive(r[1..]);
      OnesOnly(r[0], Total(r[1..]));
      if forall i :: 0 <= i < |r| ==> r[i] == 1 {
        assert forall i :: 0 <= i < |r[1..]| ==> r[1..][i] == 1;
      }
      if r[0] == 1 && Total(r[1..]) == 1 {
        forall i | 0 <= i < |r| ensures r[i] == 1 {
          assert i > 0 ==> r[i] == r[1..][i - 1];
        }
      }
    }
  }

  lemma OnesOnly(a: nat, b: nat)
    requires a > 0 && b > 0
    ensures a * b == 1 <==> a == 1 && b == 1
  {
    if a > 1 {
      MulMono(2, a, b);
    } else if b > 1 {
      assert a * b == b;
    }
  }

  lemma RadicesOne(s: Space)
    requires Supported(s)
    ensures Total(Radix(s)) == 1 <==> Single(s)
  {
    TotalOne(Radix(s));
    if forall i :: 0 <= i < |Radix(s)| ==> Radix(s)[i] == 1 {
      forall i | 0 <= i < |s.possible| ensures |s.possible[i]| == 1 {
        assert Radix(s)[i] == 1;
      }
    }
  }

  /** A DAG that leaves a request behind: every vertex has one option, and a gate over two
      inputs is idempotent or the assignment is on record. */
  ghost predicate Stuck(s: Space) {
    Single(s) && (SomeIdempotent(s) || OnRecord(s, Zeros(|s.possible|)))
  }

  lemma SticksExactly(s: Space)
    requires Valid(s)
    ensures Sticks(s) <==> Stuck(s)
  {
    hide Valid, BadGate, OnRecord, AllIdempotent, Total;
    if Single(s) {
      assert Supported(s);
      RadicesOne(s);
      var z := Zeros(|s.possible|);
      forall g: nat ensures BadGate(s, z, g) <==> AllIdempotent(s, g) {
        OneOption(s, g);
      }
    } else if Supported(s) {
      RadicesOne(s);
    }
  }

  lemma OneOption(s: Space, g: nat)
    requires Valid(s) && Single(s)
    ensures BadGate(s, Zeros(|s.possible|), g) <==> AllIdempotent(s, g)
  {
    hide Valid, BadGate, LeafGate, Fitting, LeafSymbols;
    var z := Zeros(|s.possible|);
    ByDigits(s, z, g);
    if LeafGate(s, g) {
      ValidAt(s, g);
      assert IsOption(s, g, 0);
      assert GateSymbol(s, z, g) == s.symbols[s.possible[g][0]];
      if !Plain(s, g, 0) {
        forall c: nat ensures !Plain(s, g, c) {
          assert |s.possible[g]| == 1;
        }
      }
    }
  }

  // --- DAGs with nothing to offer -------------------------------------------

  predicate Unsupported(s: Space) {
    exists i :: 0 <= i < |s.possible| && s.possible[i] == []
  }

  lemma UnsupportedExactly(s: Space)
    ensures Unsupported(s) <==> !Supported(s)
  {
    if !Supported(s) {
      var i :| 0 <= i < |Radix(s)| && Radix(s)[i] == 0;
      assert s.possible[i] == [];
    }
    if Unsupported(s) {
      var i :| 0 <= i < |s.possible| && s.possible[i] == [];
      assert Radix(s)[i] == 0;
    }
  }

  /** An option that is not idempotent, if there is one. */
  ghost function Pick(s: Space, g: nat): (c: nat)
    ensures (exists k: nat :: Plain(s, g, k)) ==> Plain(s, g, c)
    ensures !(exists k: nat :: Plain(s, g, k)) ==> c == 0
  {
    if k: nat :| Plain(s, g, k) then k else 0
  }

  /** An assignment that nothing covers: ascending inputs if there are two symbols for them,
      otherwise symbols that are not idempotent. */
  ghost function Free(s: Space): (x: seq<nat>)
    ensures |x| == |s.possible|
  {
    seq(|s.possible|, i requires 0 <= i < |s.possible| =>
      if IsUpper(s, i) then (if FewLeaves(s) then 0 else 1) else if LeafGate(s, i) then Pick(s, i) else 0)
  }

  lemma FreeIsDigits(s: Space)
    requires Valid(s) && Supported(s)
    ensures IsDigits(Radix(s), Free(s))
  {
    hide Valid, LeafSymbols, LeafGate;
    var x := Free(s);
    forall i | 0 <= i < |x| ensures x[i] < Radix(s)[i] {
      if IsUpper(s, i) {
        var h: nat :| UpperOf(s, h, i);
        PlacedGate(s, h);
      }
    }
  }

  lemma FreeIsFree(s: Space)
    requires Valid(s) && Supported(s) && (!FewLeaves(s) || !SomeIdempotent(s))
    ensures IsDigits(Radix(s), Free(s)) && forall g: nat :: !Covers(s, Free(s), g)
  {
    hide Valid, Covers, LeafGate, IsUpper, LeafSymbols, AllIdempotent, FewLeaves;
    FreeIsDigits(s);
    forall g: nat ensures !Covers(s, Free(s), g) {
      ByDigits(s, Free(s), g);
      if LeafGate(s, g) {
        Positions(s, g);
        if FewLeaves(s) {
          PlainPicked(s, g);
        }
      }
    }
  }

  lemma PlainPicked(s: Space, g: nat)
    requires Valid(s) && LeafGate(s, g) && !SomeIdempotent(s) && g < |s.possible|
    ensures !GateSymbol(s, Free(s), g).idempotent
  {
    assert !AllIdempotent(s, g);
  }

  /** Every assignment is covered. */
  ghost predicate Exhausted(s: Space) {
    forall d :: IsDigits(Radix(s), d) ==> Covered(s, d)
  }

  /** A DAG with nothing to offer: a vertex has no option, or at most one symbol is for inputs
      and a gate over two inputs has only idempotent options. With records every assignment
      has to be looked at. */
  ghost predicate Barren(s: Space) {
    Unsupported(s) || if s.duplicated == [] then FewLeaves(s) && SomeIdempotent(s) else Exhausted(s)
  }

  lemma BarrenExactly(s: Space)
    requires Valid(s)
    ensures Offered(s) == [] <==> Barren(s)
  {
    hide Valid, Covers, Covered, FewLeaves, SomeIdempotent, Unsupported, Exhausted, Offered;
    UnsupportedExactly(s);
    if Supported(s) {
      OfferedNone(s);
      if FewLeaves(s) && SomeIdempotent(s) {
        AllCovered(s);
      } else if s.duplicated == [] {
        SomethingFree(s);
      }
    } else {
      OfferedUnsupported(s);
    }
  }

  lemma OfferedUnsupported(s: Space)
    requires !Supported(s)
    ensures Offered(s) == []
  {
  }

  lemma OfferedNone(s: Space)
    requires Supported(s)
    ensures Offered(s) == [] <==> Exhausted(s)
  {
    hide Covered, From, Keep;
    var kept := Keep(CoveredOf(s), From(Radix(s), 0));
    if kept != [] {
      KeepMembers(CoveredOf(s), From(Radix(s), 0), kept[0]);
      FromMembers(Radix(s), 0, kept[0]);
    }
    forall d | IsDigits(Radix(s), d) && !Covered(s, d) ensures d in kept {
      KeepMembers(CoveredOf(s), From(Radix(s), 0), d);
      FromMembers(Radix(s), 0, d);
    }
  }

  lemma SomethingFree(s: Space)
    requires Valid(s) && Supported(s) && s.duplicated == [] && !(FewLeaves(s) && SomeIdempotent(s))
    ensures !Exhausted(s)
  {
    hide Valid, Covers, Covered, FewLeaves, SomeIdempotent;
    FreeIsFree(s);
    NoneOnRecord(s, Free(s));
    NotCoveredAtAll(s, Free(s));
  }

  lemma NotCoveredAtAll(s: Space, x: seq<nat>)
    requires !OnRecord(s, x) && forall g: nat :: !Covers(s, x, g)
    ensures !Covered(s, x)
  {
    hide OnRecord, Covers;
  }

  lemma AllCovered(s: Space)
    requires Valid(s) && FewLeaves(s) && SomeIdempotent(s)
    ensures Exhausted(s)
  {
    hide Valid, Covered, Covers, AllIdempotent, FewLeaves;
    var g: nat :| AllIdempotent(s, g);
    forall d | IsDigits(Radix(s), d) ensures Covered(s, d) {
      IdempotentCovers(s, g, d);
      CoveredByGate(s, d, g);
    }
  }

  lemma IdempotentCovers(s: Space, g: nat, x: seq<nat>)
    requires Valid(s) && FewLeaves(s) && AllIdempotent(s, g) && IsDigits(Radix(s), x)
    ensures Covers(s, x, g)
  {
    hide Valid, Covers, LeafGate, LeafSymbols;
    ByDigits(s, x, g);
    assert !Plain(s, g, x[g]);
  }

  // --- Lists of DAGs --------------------------------------------------------

  /** Every DAG after a stuck one that is not itself passed over is barren. */
  ghost predicate Harmless(symbols: seq<Symbol>, duplicated: seq<seq<nat>>, pdags: seq<Rows>, skip: bool) {
    pdags != [] ==>
      var s := SpaceOf(symbols, duplicated, pdags[0]);
      (skip ==> Barren(s)) && Harmless(symbols, duplicated, pdags[1..], !skip && Stuck(s))
  }

  ghost predicate Enumerable(pdags: seq<Rows>) {
    forall k :: 0 <= k < |pdags| ==> IsDag(pdags[k], 2) && |pdags[k]| > 0
  }

  /** Nothing is lost if and only if that is so. */
  lemma {:induction false} LossExactly(symbols: seq<Symbol>, duplicated: seq<seq<nat>>, pdags: seq<Rows>, skip: bool)
    requires FlagsOk(symbols) && Recorded(duplicated) && Enumerable(pdags)
    ensures |AllOffered(symbols, duplicated, pdags, skip)| <= |Concatenated(symbols, duplicated, pdags)|
    ensures AllOffered(symbols, duplicated, pdags, skip) == Concatenated(symbols, duplicated, pdags) <==>
            Harmless(symbols, duplicated, pdags, skip)
  {
    hide Sticks, SpaceOf, Offered, Barren, Stuck, FlagsOk, Recorded;
    if pdags != [] {
      var s := SpaceOf(symbols, duplicated, pdags[0]);
      StuckAndBarren(symbols, duplicated, pdags[0]);
      var skip' := !skip && Sticks(s);
      LossExactly(symbols, duplicated, pdags[1..], skip');
      var rest := AllOffered(symbols, duplicated, pdags[1..], skip');
      var all := Concatenated(symbols, duplicated, pdags[1..]);
      if skip {
        assert [] + rest == rest;
        if Offered(s) == [] {
          assert [] + all == all;
        }
      } else {
        SameTail(Offered(s), rest, all);
      }
    }
  }

  lemma StuckAndBarren(symbols: seq<Symbol>, duplicated: seq<seq<nat>>, g: Rows)
    requires FlagsOk(symbols) && Recorded(duplicated) && IsDag(g, 2)
    ensures var s := SpaceOf(symbols, duplicated, g);
            (Sticks(s) <==> Stuck(s)) && (Offered(s) == [] <==> Barren(s))
  {
    hide FlagsOk, Sticks, Offered, Stuck, Barren, SpaceOf;
    SpaceValid(symbols, duplicated, g);
    SticksExactly(SpaceOf(symbols, duplicated, g));
    BarrenExactly(SpaceOf(symbols, duplicated, g));
  }

  /** After a stuck DAG there is one symbol for inputs, so the next one is barren if and only
      if a vertex has no option or a gate over two inputs has only idempotent options. */
  lemma AfterStuck(symbols: seq<Symbol>, g: Rows, h: Rows)
    requires FlagsOk(symbols) && IsDag(g, 2) && IsDag(h, 2) && Stuck(SpaceOf(symbols, [], g))
    ensures |LeafSymbols(symbols)| == 1
    ensures var s := SpaceOf(symbols, [], h);
            Offered(s) == [] <==> Unsupported(s) || SomeIdempotent(s)
  {
    hide FlagsOk, Offered, LaidOut, Unsupported, LeafGate, LeafSymbols;
    var s := SpaceOf(symbols, [], g);
    SpaceValid(symbols, [], g);
    SpaceSymbols(symbols, g);
    SpaceSymbols(symbols, h);
    NoneOnRecord(s, Zeros(|s.possible|));
    var k: nat :| AllIdempotent(s, k);
    PlacedGate(s, k);
    StuckAndBarren(symbols, [], h);
  }

  lemma SpaceSymbols(symbols: seq<Symbol>, g: Rows)
    ensures SpaceOf(symbols, [], g).symbols == symbols && SpaceOf(symbols, [], g).duplicated == []
  {
  }
}
