/** What the duplicate filter of the word enumerator keeps, in terms of terms. */
module WordTidy {
  import opened WordSyntax
  import opened WordPrune

  /** The leaves do not descend. */
  predicate Ascending(ls: seq<nat>) {
    forall i, j :: 0 <= i < j < |ls| ==> ls[i] <= ls[j]
  }

  predicate Distinct(ls: seq<nat>) {
    forall i, j :: 0 <= i < j < |ls| ==> ls[i] != ls[j]
  }

  /** The root of t is in normal form: a function that is not to be doubled is not applied
      to itself; a nest of a commutative operator is nested to the left over ascending
      leaves; an idempotent operator has two different operands, and a nest of it no
      leaf twice. */
  predicate TidyAt(G: seq<Symbol>, t: Term)
    requires Typed(G, t)
  {
    match t
    case Leaf(s) => true
    case Un(s, c) => G[s].noDouble ==> c.s != s
    case Bin(s, l, r) =>
      && (G[s].commutative && ChainTerm(s, t) ==> t == Comb(s, Leaves(t)) && Ascending(Leaves(t)))
      && (G[s].idempotent ==> l != r && (ChainTerm(s, t) ==> Distinct(Leaves(t))))
  }

  /** Every subterm is. */
  predicate Tidy(G: seq<Symbol>, t: Term)
    requires Typed(G, t)
  {
    && TidyAt(G, t)
    && match t
       case Leaf(s) => true
       case Un(s, c) => Tidy(G, c)
       case Bin(s, l, r) => Tidy(G, l) && Tidy(G, r)
  }

  // --- Nests ----------------------------------------------------------------

  /** The word of a nest has no other symbols than the operator and leaves. */
  lemma {:induction false} NestWord(G: seq<Symbol>, op: nat, t: Term)
    requires Typed(G, t) && ChainTerm(op, t)
    ensures forall x :: x in Enc(t) ==> x < |G| && (x == op || G[x].arity == 0)
    decreases t
  {
    match t
    case Leaf(s) =>
    case Bin(s, l, r) =>
      NestWord(G, op, l);
      NestWord(G, op, r);
  }

  /** The chain test recognises the nests over at least three leaves. */
  lemma NestIsChain(G: seq<Symbol>, t: Term)
    requires Typed(G, t) && t.Bin?
    ensures Over(G, Enc(t)) && |Leaves(t)| >= 2
    ensures IsChain(G, t.s, Enc(t)) <==> ChainTerm(t.s, t) && |Leaves(t)| >= 3
    ensures ChainTerm(t.s, t) ==> Without(t.s, Enc(t)) == Leaves(t) && |Enc(t)| == 2 * |Leaves(t)| - 1
  {
    hide Enc, ChainTerm, Leaves;
    EncOver(G, t);
    TwoLeaves(t);
    if IsChain(G, t.s, Enc(t)) {
      ChainFacts(G, t);
    }
    if ChainTerm(t.s, t) {
      NestWord(G, t.s, t);
      ChainLeaves(t.s, t);
    }
  }

  lemma TwoLeaves(t: Term)
    requires t.Bin?
    ensures |Leaves(t)| >= 2
  {
  }

  /** A nest with all operators in front is nested to the left. */
  lemma FrontIsComb(G: seq<Symbol>, t: Term)
    requires Typed(G, t) && t.Bin? && Over(G, Enc(t)) && IsChain(G, t.s, Enc(t))
    ensures CombOrder(Enc(t)) <==> t == Comb(t.s, Leaves(t))
  {
    hide Enc, ChainTerm, Leaves, IsChain, Comb;
    ChainFacts(G, t);
    if CombOrder(Enc(t)) {
      CombOfChain(G, t);
    }
    if t == Comb(t.s, Leaves(t)) {
      CombShape(G, t.s, Leaves(t));
    }
  }

  lemma {:induction false} SortedAscends(ls: seq<nat>)
    ensures Sorted(ls) <==> Ascending(ls)
  {
    if |ls| > 1 {
      var n := |ls| - 1;
      SortedAscends(ls[..n]);
      if Sorted(ls) {
        assert Sorted(ls[..n]);
        forall i, j | 0 <= i < j < |ls| ensures ls[i] <= ls[j] {
          if i < j == n {
            assert ls[n - 1] <= ls[n];
            assert i < n - 1 ==> ls[..n][i] <= ls[..n][n - 1];
          } else {
            assert ls[..n][i] <= ls[..n][j];
          }
        }
      }
    }
  }

  /** A nest over two leaves is the left one. */
  lemma SmallNest(G: seq<Symbol>, t: Term)
    requires Typed(G, t) && t.Bin?
    ensures |Enc(t)| == 3 <==> ChainTerm(t.s, t) && |Leaves(t)| == 2
    ensures |Enc(t)| == 3 ==>
              && t.l.Leaf? && t.r.Leaf? && Enc(t) == [t.s, t.l.s, t.r.s] && Leaves(t) == [t.l.s, t.r.s]
              && t == Comb(t.s, Leaves(t))
  {
    SmallestTerms(t.l);
    SmallestTerms(t.r);
    if t.l.Leaf? && t.r.Leaf? {
      assert Leaves(t)[..1] == [t.l.s];
    } else if ChainTerm(t.s, t) {
      ChainLeaves(t.s, t);
    }
  }

  // --- The filter at one position -------------------------------------------

  lemma SwappedIff(G: seq<Symbol>, t: Term)
    requires Typed(G, t) && t.Bin? && Over(G, Enc(t))
    ensures (|Enc(t)| == 3 && Enc(t)[1] > Enc(t)[2])
            || (IsChain(G, t.s, Enc(t)) && (!CombOrder(Enc(t)) || !Sorted(Without(t.s, Enc(t)))))
            <==> ChainTerm(t.s, t) && !(t == Comb(t.s, Leaves(t)) && Ascending(Leaves(t)))
  {
    hide Enc, ChainTerm, Leaves, IsChain, Comb, CombOrder, Sorted, Typed;
    NestIsChain(G, t);
    SmallNest(G, t);
    SortedAscends(Leaves(t));
    if IsChain(G, t.s, Enc(t)) {
      FrontIsComb(G, t);
    }
  }

  lemma RepeatedIff(G: seq<Symbol>, t: Term)
    requires Typed(G, t) && t.Bin? && Over(G, Enc(t))
    ensures Enc(t.l) == Enc(t.r) || (IsChain(G, t.s, Enc(t)) && !Unique(Without(t.s, Enc(t))))
            <==> t.l == t.r || (ChainTerm(t.s, t) && !Distinct(Leaves(t)))
  {
    NestIsChain(G, t);
    SmallNest(G, t);
    hide Enc, ChainTerm, Leaves, IsChain;
    if Enc(t.l) == Enc(t.r) {
      UniqueParse(G, t.l, t.r, [], []);
    }
  }

  /** What the filter reads at the first symbol of a subterm. */
  lemma AtTerm(G: seq<Symbol>, w: seq<nat>, pre: seq<nat>, t: Term, post: seq<nat>)
    requires Typed(G, t) && Over(G, w) && w == pre + Enc(t) + post
    ensures |pre| < |w| && w[|pre|] == t.s && SubtreeAt(G, w, |pre|) == Enc(t) && Over(G, Enc(t))
    ensures t.Un? ==> |pre| + 1 < |w| && w[|pre| + 1] == t.t.s
    ensures t.Bin? ==> SubtreeAt(G, w, |pre| + 1) == Enc(t.l) && |pre| + 1 + |Enc(t.l)| < |w|
                       && SubtreeAt(G, w, |pre| + 1 + |Enc(t.l)|) == Enc(t.r)
  {
    hide SubtreeAt;
    OverParts(G, pre, Enc(t), post);
    assert w[|pre|..] == Enc(t) + post;
    SubtreePrefix(G, w, |pre|, t, post);
    if t.Un? {
      assert w[|pre| + 1] == w[|pre|..][1] == Enc(t.t)[0];
    }
    if t.Bin? {
      BinaryParts(G, w, |pre|, t, post);
    }
  }

  lemma FlagsAt(G: seq<Symbol>, s: nat)
    requires Flags(G) && s < |G|
    ensures G[s].noDouble ==> G[s].arity == 1
    ensures G[s].commutative || G[s].idempotent ==> G[s].arity == 2
  {
  }

  /** At the first symbol of a subterm the filter finds a reason to drop the word exactly
      if the root of the subterm is not in normal form. */
  lemma TidyPosition(G: seq<Symbol>, w: seq<nat>, pre: seq<nat>, t: Term, post: seq<nat>)
    requires Flags(G) && Typed(G, t) && Over(G, w) && w == pre + Enc(t) + post
    ensures |pre| < |w| && (DuplicateAt(G, w, |pre|) <==> !TidyAt(G, t))
  {
    hide Enc, ChainTerm, Leaves, IsChain, Comb, CombOrder, Sorted, Without, Unique, SubtreeAt, Flags;
    AtTerm(G, w, pre, t, post);
    FlagsAt(G, t.s);
    if t.Bin? {
      SwappedIff(G, t);
      RepeatedIff(G, t);
    }
  }

  /** So the positions of a subterm are clean exactly if the subterm is tidy. */
  lemma {:induction false} TidyPositions(G: seq<Symbol>, w: seq<nat>, pre: seq<nat>, t: Term, post: seq<nat>)
    requires Flags(G) && Typed(G, t) && Over(G, w) && w == pre + Enc(t) + post
    ensures Tidy(G, t) <==> Clean(G, w, |pre|, |pre| + |Enc(t)|)
    decreases t
  {
    hide DuplicateAt, TidyAt, Over, Flags;
    TidyPosition(G, w, pre, t, post);
    var p := pre + [t.s];
    match t
    case Leaf(s) =>
    case Un(s, c) =>
      assert w == p + Enc(c) + post;
      TidyPositions(G, w, p, c, post);
    case Bin(s, l, r) =>
      assert w == p + Enc(l) + (Enc(r) + post);
      TidyPositions(G, w, p, l, Enc(r) + post);
      assert w == (p + Enc(l)) + Enc(r) + post;
      TidyPositions(G, w, p + Enc(l), r, post);
  }

  /** The filter finds nothing from position i up to position j. */
  predicate Clean(G: seq<Symbol>, w: seq<nat>, i: nat, j: nat)
    requires Over(G, w) && j <= |w|
  {
    forall k :: i <= k < j ==> !DuplicateAt(G, w, k)
  }

  /** The filter keeps exactly the words of the terms all of whose subterms are in normal
      form. */
  lemma KeptIffTidy(G: seq<Symbol>, t: Term)
    requires Small(G) && Flags(G) && Typed(G, t)
    ensures Concrete(G, Enc(t))
    ensures !Duplicate(G, Enc(t)) <==> Tidy(G, t)
  {
    ConcreteIffTerm(G, Enc(t));
    assert Enc(t) == [] + Enc(t) + [];
    TidyPositions(G, Enc(t), [], t, []);
  }

  /** Accepted and kept are exactly the words of tidy terms. */
  lemma KeptWords(G: seq<Symbol>, w: seq<nat>)
    requires Small(G) && Flags(G)
    ensures Concrete(G, w) && !Duplicate(G, w) <==> exists t :: Typed(G, t) && Enc(t) == w && Tidy(G, t)
  {
    hide Duplicate, Tidy, Enc;
    ConcreteIffTerm(G, w);
    forall t | Typed(G, t) && Enc(t) == w ensures Concrete(G, w) && (!Duplicate(G, w) <==> Tidy(G, t)) {
      KeptIffTidy(G, t);
    }
  }
}
