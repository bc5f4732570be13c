/** The duplicate filter of the word enumerator, and the proof that it never drops
    the last word with a given meaning. */
module WordPrune {
  import opened WordSyntax
  import opened WordOrder

  /** The flags sit on symbols of the arity they are meant for; elsewhere the filter
      would look behind the end of the word. */
  predicate Flags(G: seq<Symbol>) {
    forall s :: 0 <= s < |G| ==>
      (G[s].noDouble ==> G[s].arity == 1) && (G[s].commutative ==> G[s].arity == 2) &&
      (G[s].idempotent ==> G[s].arity == 2)
  }

  // --- The filter -----------------------------------------------------------

  /** The tree consists of the operator and of leaves, and holds two operators. */
  predicate IsChain(G: seq<Symbol>, op: nat, tree: seq<nat>)
    requires Over(G, tree)
  {
    |tree| >= 5 && forall i :: 0 <= i < |tree| ==> tree[i] == op || G[tree[i]].arity == 0
  }

  /** The first half of the word is one symbol repeated. */
  predicate CombOrder(tree: seq<nat>)
    requires |tree| > 0
  {
    forall i :: 0 < i < (|tree| - 1) / 2 ==> tree[i - 1] == tree[i]
  }

  function Without(op: nat, w: seq<nat>): seq<nat> {
    if w == [] then []
    else if w[0] == op then Without(op, w[1..])
    else [w[0]] + Without(op, w[1..])
  }

  predicate Sorted(w: seq<nat>) {
    forall i :: 0 < i < |w| ==> w[i - 1] <= w[i]
  }

  predicate Unique(w: seq<nat>) {
    forall i, j :: 0 <= i < j < |w| ==> w[i] != w[j]
  }

  predicate DoubleAt(G: seq<Symbol>, w: seq<nat>, i: nat)
    requires Over(G, w) && i < |w|
  {
    G[w[i]].noDouble && i + 1 < |w| && w[i + 1] == w[i]
  }

  predicate SwappedAt(G: seq<Symbol>, w: seq<nat>, i: nat)
    requires Over(G, w) && i < |w|
  {
    var sub := SubtreeAt(G, w, i);
    && G[w[i]].commutative
    && ((|sub| == 3 && sub[1] > sub[2]) ||
        (IsChain(G, w[i], sub) && (!CombOrder(sub) || !Sorted(Without(w[i], sub)))))
  }

  predicate RepeatedAt(G: seq<Symbol>, w: seq<nat>, i: nat)
    requires Over(G, w) && i < |w|
  {
    var left := SubtreeAt(G, w, i + 1);
    var right := SubtreeAt(G, w, i + 1 + |left|);
    var sub := SubtreeAt(G, w, i);
    && G[w[i]].idempotent
    && (left == right || (IsChain(G, w[i], sub) && !Unique(Without(w[i], sub))))
  }

  predicate DuplicateAt(G: seq<Symbol>, w: seq<nat>, i: nat)
    requires Over(G, w) && i < |w|
  {
    DoubleAt(G, w, i) || SwappedAt(G, w, i) || RepeatedAt(G, w, i)
  }

  predicate Duplicate(G: seq<Symbol>, w: seq<nat>)
    requires Over(G, w)
  {
    exists i :: 0 <= i < |w| && DuplicateAt(G, w, i)
  }

  // --- What the flags promise -----------------------------------------------

  ghost predicate DoubleLaw<D(!new)>(sem: Sem<D>, s: nat) {
    forall x :: sem.un(s, sem.un(s, x)) == x || sem.un(s, sem.un(s, x)) == sem.un(s, x)
  }

  ghost predicate AC<D(!new)>(sem: Sem<D>, s: nat) {
    && (forall x, y :: sem.bin(s, x, y) == sem.bin(s, y, x))
    && (forall x, y, z :: sem.bin(s, sem.bin(s, x, y), z) == sem.bin(s, x, sem.bin(s, y, z)))
  }

  ghost predicate IdempotentLaw<D(!new)>(sem: Sem<D>, s: nat) {
    AC(sem, s) && forall x :: sem.bin(s, x, x) == x
  }

  /** Flagged symbols denote functions with the laws the flags stand for. */
  ghost predicate Lawful<D(!new)>(G: seq<Symbol>, sem: Sem<D>) {
    && (forall s {:trigger DoubleLaw(sem, s)} :: 0 <= s < |G| && G[s].noDouble ==> DoubleLaw(sem, s))
    && (forall s {:trigger AC(sem, s)} :: 0 <= s < |G| && G[s].commutative ==> AC(sem, s))
    && (forall s {:trigger IdempotentLaw(sem, s)} :: 0 <= s < |G| && G[s].idempotent ==> IdempotentLaw(sem, s))
  }

  // --- The order in which words are simplified ------------------------------

  /** 1 for a leaf, 0 for an operator: operators are to move to the front. */
  function Mask(G: seq<Symbol>, w: seq<nat>): (m: seq<nat>)
    requires Over(G, w)
    ensures |m| == |w| && forall i :: 0 <= i < |w| ==> m[i] == if G[w[i]].arity == 0 then 1 else 0
  {
    seq(|w|, i requires 0 <= i < |w| && w[i] < |G| => if G[w[i]].arity == 0 then 1 else 0)
  }

  /** Shorter, or with operators further in front, or lexicographically smaller. */
  ghost predicate Simpler(G: seq<Symbol>, x: seq<nat>, y: seq<nat>) {
    && Over(G, x) && Over(G, y)
    && (|x| < |y|
        || (exists j :: LexAt(Mask(G, x), Mask(G, y), j))
        || (Mask(G, x) == Mask(G, y) && exists j :: LexAt(x, y, j)))
  }

  /** The order has no infinite descent: it is carried by three natural numbers. */
  lemma SimplerDecreases(G: seq<Symbol>, x: seq<nat>, y: seq<nat>)
    requires Simpler(G, x, y)
    ensures |x| < |y| || (|x| == |y| &&
              (Value(2, Mask(G, x)) < Value(2, Mask(G, y)) ||
               (Value(2, Mask(G, x)) == Value(2, Mask(G, y)) && Value(|G|, x) < Value(|G|, y))))
  {
    if |x| >= |y| {
      if j :| LexAt(Mask(G, x), Mask(G, y), j) {
        LexIsValue(2, Mask(G, x), Mask(G, y), j);
      } else {
        var j :| LexAt(x, y, j);
        LexIsValue(|G|, x, y, j);
      }
    }
  }

  // --- Replacing a subterm --------------------------------------------------

  lemma {:induction false} RunContext<D>(G: seq<Symbol>, sem: Sem<D>, pre: seq<nat>, x: seq<nat>, y: seq<nat>)
    requires Over(G, pre) && Over(G, x) && Over(G, y) && Run(G, sem, x) == Run(G, sem, y)
    ensures Over(G, pre + x) && Over(G, pre + y) && Run(G, sem, pre + x) == Run(G, sem, pre + y)
  {
    if pre == [] {
      assert pre + x == x && pre + y == y;
    } else {
      RunContext(G, sem, pre[1..], x, y);
      assert (pre + x)[1..] == pre[1..] + x && (pre + y)[1..] == pre[1..] + y;
    }
  }

  lemma {:induction false} ScanContext(G: seq<Symbol>, pre: seq<nat>, x: seq<nat>, y: seq<nat>, c: int)
    requires Over(G, pre) && Over(G, x) && Over(G, y)
    requires forall d :: Scan(G, x, d) == Scan(G, y, d)
    ensures Over(G, pre + x) && Over(G, pre + y) && Scan(G, pre + x, c) == Scan(G, pre + y, c)
  {
    if pre == [] {
      assert pre + x == x && pre + y == y;
    } else {
      ScanContext(G, pre[1..], x, y, c - 1 + G[pre[0]].arity);
      assert (pre + x)[1..] == pre[1..] + x && (pre + y)[1..] == pre[1..] + y;
    }
  }

  /** Exchanging a subterm for one with the same meaning keeps word and meaning. */
  lemma Replace<D>(G: seq<Symbol>, sem: Sem<D>, pre: seq<nat>, t: Term, u: Term, post: seq<nat>)
    requires Small(G) && Typed(G, t) && Typed(G, u) && Eval(sem, t) == Eval(sem, u)
    requires Concrete(G, pre + Enc(t) + post)
    ensures Concrete(G, pre + Enc(u) + post)
    ensures Run(G, sem, pre + Enc(u) + post) == Run(G, sem, pre + Enc(t) + post)
  {
    hide Scan, Run, Enc, Small, Eval, Over, Typed;
    OverParts(G, pre, Enc(t), post);
    SuffixRuns(G, sem, pre + Enc(t), post);
    RunTerm(G, sem, t, post);
    RunTerm(G, sem, u, post);
    RunContext(G, sem, pre, Enc(t) + post, Enc(u) + post);
    ReplaceScan(G, pre, t, u, post);
    assert pre + Enc(t) + post == pre + (Enc(t) + post);
    assert pre + Enc(u) + post == pre + (Enc(u) + post);
  }

  lemma OverParts(G: seq<Symbol>, x: seq<nat>, y: seq<nat>, z: seq<nat>)
    requires Over(G, x + y + z)
    ensures Over(G, x) && Over(G, y) && Over(G, z)
  {
    assert forall i :: 0 <= i < |x| ==> x[i] == (x + y + z)[i];
    assert forall i :: 0 <= i < |y| ==> y[i] == (x + y + z)[|x| + i];
    assert forall i :: 0 <= i < |z| ==> z[i] == (x + y + z)[|x| + |y| + i];
  }

  lemma ReplaceScan(G: seq<Symbol>, pre: seq<nat>, t: Term, u: Term, post: seq<nat>)
    requires Typed(G, t) && Typed(G, u) && Over(G, pre) && Over(G, post)
    ensures Over(G, pre + (Enc(t) + post)) && Over(G, pre + (Enc(u) + post))
    ensures Scan(G, pre + (Enc(t) + post), 1) == Scan(G, pre + (Enc(u) + post), 1)
  {
    hide Enc, Typed, Over;
    var x, y := Enc(t) + post, Enc(u) + post;
    Tail(G, t, post);
    Tail(G, u, post);
    forall d ensures Scan(G, x, d) == Scan(G, y, d) {
      if d >= 1 {
        ScanTerm(G, t, post, d - 1);
        ScanTerm(G, u, post, d - 1);
      }
    }
    ScanContext(G, pre, x, y, 1);
  }

  /** A suffix of an accepted word does not make the machine fail. */
  lemma {:induction false} SuffixRuns<D>(G: seq<Symbol>, sem: Sem<D>, pre: seq<nat>, post: seq<nat>)
    requires Small(G) && Concrete(G, pre + post)
    ensures Over(G, post) && Run(G, sem, post).Values?
  {
    MachineAgrees(G, sem, pre + post);
    SuffixValues(G, sem, pre, post);
  }

  lemma {:induction false} SuffixValues<D>(G: seq<Symbol>, sem: Sem<D>, pre: seq<nat>, post: seq<nat>)
    requires Over(G, pre + post) && Run(G, sem, pre + post).Values?
    ensures Over(G, post) && Run(G, sem, post).Values?
    decreases |pre|
  {
    if pre == [] {
      assert pre + post == post;
    } else {
      assert (pre + post)[1..] == pre[1..] + post;
      SuffixValues(G, sem, pre[1..], post);
    }
  }

  // --- Chains of one operator -----------------------------------------------

  predicate ChainTerm(op: nat, t: Term) {
    match t
    case Leaf(s) => s != op
    case Un(s, c) => false
    case Bin(s, l, r) => s == op && ChainTerm(op, l) && ChainTerm(op, r)
  }

  function Leaves(t: Term): (ls: seq<nat>)
    ensures |ls| > 0
  {
    match t
    case Leaf(s) => [s]
    case Un(s, c) => Leaves(c)
    case Bin(s, l, r) => Leaves(l) + Leaves(r)
  }

  predicate LeafWord(G: seq<Symbol>, ls: seq<nat>) {
    forall i :: 0 <= i < |ls| ==> ls[i] < |G| && G[ls[i]].arity == 0
  }

  /** The left-nested chain over a row of leaves. */
  function Comb(op: nat, ls: seq<nat>): Term
    requires |ls| > 0
  {
    if |ls| == 1 then Leaf(ls[0]) else Bin(op, Comb(op, ls[..|ls| - 1]), Leaf(ls[|ls| - 1]))
  }

  function Rep(s: nat, n: nat): (w: seq<nat>)
    ensures |w| == n && forall i :: 0 <= i < n ==> w[i] == s
  {
    seq(n, _ => s)
  }

  function Fold<D>(sem: Sem<D>, op: nat, ls: seq<nat>): D
    requires |ls| > 0
  {
    if |ls| == 1 then sem.leaf(ls[0])
    else sem.bin(op, Fold(sem, op, ls[..|ls| - 1]), sem.leaf(ls[|ls| - 1]))
  }

  lemma {:induction false} ChainIsTerm(G: seq<Symbol>, op: nat, t: Term)
    requires Typed(G, t) && op < |G| && G[op].arity == 2
    requires forall x :: x in Enc(t) ==> x < |G| && (x == op || G[x].arity == 0)
    ensures ChainTerm(op, t)
    decreases t
  {
    assert Enc(t)[0] in Enc(t);
    match t
    case Leaf(s) =>
    case Un(s, c) =>
    case Bin(s, l, r) =>
      assert forall x :: x in Enc(l) || x in Enc(r) ==> x in Enc(t);
      ChainIsTerm(G, op, l);
      ChainIsTerm(G, op, r);
  }

  lemma {:induction false} WithoutConcat(op: nat, x: seq<nat>, y: seq<nat>)
    ensures Without(op, x + y) == Without(op, x) + Without(op, y)
  {
    if x == [] {
      assert x + y == y;
    } else {
      assert (x + y)[1..] == x[1..] + y;
      WithoutConcat(op, x[1..], y);
    }
  }

  lemma {:induction false} ChainLeaves(op: nat, t: Term)
    requires ChainTerm(op, t)
    ensures Without(op, Enc(t)) == Leaves(t) && |Enc(t)| == 2 * |Leaves(t)| - 1
    decreases t
  {
    match t
    case Leaf(s) =>
      assert Enc(t)[1..] == [];
    case Bin(s, l, r) =>
      ChainLeaves(op, l);
      ChainLeaves(op, r);
      assert Enc(t) == [s] + (Enc(l) + Enc(r));
      assert Enc(t)[1..] == Enc(l) + Enc(r);
      WithoutConcat(op, Enc(l), Enc(r));
  }

  lemma {:induction false} LeavesTyped(G: seq<Symbol>, op: nat, t: Term)
    requires Typed(G, t) && ChainTerm(op, t)
    ensures LeafWord(G, Leaves(t))
    decreases t
  {
    match t
    case Leaf(s) =>
    case Bin(s, l, r) =>
      LeavesTyped(G, op, l);
      LeavesTyped(G, op, r);
  }

  lemma {:induction false} CombShape(G: seq<Symbol>, op: nat, ls: seq<nat>)
    requires |ls| > 0 && op < |G| && G[op].arity == 2
    requires LeafWord(G, ls)
    ensures Typed(G, Comb(op, ls)) && Enc(Comb(op, ls)) == Rep(op, |ls| - 1) + ls
    decreases |ls|
  {
    var n := |ls| - 1;
    if n > 0 {
      CombShape(G, op, ls[..n]);
      assert Enc(Comb(op, ls)) == [op] + (Rep(op, n - 1) + ls[..n]) + [ls[n]];
      assert [op] + Rep(op, n - 1) == Rep(op, n) && ls[..n] + [ls[n]] == ls;
    }
  }

  lemma {:induction false} CombMeaning<D>(sem: Sem<D>, op: nat, ls: seq<nat>)
    requires |ls| > 0
    ensures Eval(sem, Comb(op, ls)) == Fold(sem, op, ls)
    decreases |ls|
  {
    if |ls| > 1 {
      CombMeaning(sem, op, ls[..|ls| - 1]);
    }
  }

  lemma Assoc<D(!new)>(sem: Sem<D>, op: nat, x: D, y: D, z: D)
    requires AC(sem, op)
    ensures sem.bin(op, sem.bin(op, x, y), z) == sem.bin(op, x, sem.bin(op, y, z))
  {
  }

  lemma {:induction false} FoldConcat<D(!new)>(sem: Sem<D>, op: nat, x: seq<nat>, y: seq<nat>)
    requires AC(sem, op) && |x| > 0 && |y| > 0
    ensures Fold(sem, op, x + y) == sem.bin(op, Fold(sem, op, x), Fold(sem, op, y))
    decreases |y|
  {
    hide AC;
    var n := |y| - 1;
    assert (x + y)[..|x| + n] == x + y[..n];
    if n == 0 {
      assert x + y[..n] == x;
    } else {
      FoldConcat(sem, op, x, y[..n]);
      Assoc(sem, op, Fold(sem, op, x), Fold(sem, op, y[..n]), sem.leaf(y[n]));
    }
  }

  /** Flattening a chain keeps its meaning. */
  lemma {:induction false} ChainMeaning<D(!new)>(sem: Sem<D>, op: nat, t: Term)
    requires AC(sem, op) && ChainTerm(op, t)
    ensures Eval(sem, t) == Fold(sem, op, Leaves(t))
    decreases t
  {
    match t
    case Leaf(s) =>
    case Bin(s, l, r) =>
      ChainMeaning(sem, op, l);
      ChainMeaning(sem, op, r);
      FoldConcat(sem, op, Leaves(l), Leaves(r));
  }

  lemma {:induction false} FoldSameTail<D>(sem: Sem<D>, op: nat, x: seq<nat>, y: seq<nat>, z: seq<nat>)
    requires |x| > 0 && |y| > 0 && Fold(sem, op, x) == Fold(sem, op, y)
    ensures Fold(sem, op, x + z) == Fold(sem, op, y + z)
    decreases |z|
  {
    if z == [] {
      assert x + z == x && y + z == y;
    } else {
      var n := |z| - 1;
      assert (x + z)[..|x| + n] == x + z[..n] && (y + z)[..|y| + n] == y + z[..n];
      FoldSameTail(sem, op, x, y, z[..n]);
    }
  }

  /** Exchanging two neighbouring leaves keeps the meaning. */
  lemma FoldSwap<D(!new)>(sem: Sem<D>, op: nat, x: seq<nat>, a: nat, b: nat, z: seq<nat>)
    requires AC(sem, op)
    ensures Fold(sem, op, x + [a, b] + z) == Fold(sem, op, x + [b, a] + z)
  {
    var p, q := x + [a, b], x + [b, a];
    assert p[..|x| + 1] == x + [a] && q[..|x| + 1] == x + [b];
    if |x| > 0 {
      assert (x + [a])[..|x|] == x && (x + [b])[..|x|] == x;
    } else {
      assert x + [a] == [a] && x + [b] == [b];
    }
    FoldSameTail(sem, op, p, q, z);
  }

  /** A leaf that already occurs adds nothing. */
  lemma {:induction false} FoldAbsorb<D(!new)>(sem: Sem<D>, op: nat, x: seq<nat>, a: nat)
    requires IdempotentLaw(sem, op) && a in x
    ensures Fold(sem, op, x + [a]) == Fold(sem, op, x)
    decreases |x|
  {
    var n := |x| - 1;
    assert (x + [a])[..|x|] == x;
    if n > 0 && x[n] != a {
      assert a in x[..n];
      FoldAbsorb(sem, op, x[..n], a);
      assert (x[..n] + [a])[..n] == x[..n];
    }
  }

  lemma FoldDrop<D(!new)>(sem: Sem<D>, op: nat, ls: seq<nat>, i: nat, j: nat)
    requires IdempotentLaw(sem, op) && i < j < |ls| && ls[i] == ls[j]
    ensures Fold(sem, op, ls[..j] + ls[j + 1..]) == Fold(sem, op, ls)
  {
    hide Fold;
    assert ls[..j][i] in ls[..j];
    FoldAbsorb(sem, op, ls[..j], ls[j]);
    FoldSameTail(sem, op, ls[..j] + [ls[j]], ls[..j], ls[j + 1..]);
    assert ls[..j] + [ls[j]] + ls[j + 1..] == ls;
  }

  // --- One simplification step ----------------------------------------------

  /** w has the subterm t between pre and post. */
  ghost predicate Around(G: seq<Symbol>, w: seq<nat>, pre: seq<nat>, t: Term, post: seq<nat>) {
    Small(G) && Flags(G) && Concrete(G, w) && Typed(G, t) && w == pre + Enc(t) + post
  }

  /** v is a simpler word with the same meaning as w. */
  ghost predicate Improves<D(!new)>(G: seq<Symbol>, sem: Sem<D>, v: seq<nat>, w: seq<nat>) {
    Concrete(G, v) && Concrete(G, w) && Simpler(G, v, w) && Run(G, sem, v) == Run(G, sem, w)
  }

  /** A shorter subterm with the same meaning simplifies the word. */
  lemma ShorterImproves<D(!new)>(G: seq<Symbol>, sem: Sem<D>, w: seq<nat>, pre: seq<nat>, t: Term, u: Term,
      post: seq<nat>)
    requires Around(G, w, pre, t, post) && Typed(G, u) && Eval(sem, u) == Eval(sem, t) && |Enc(u)| < |Enc(t)|
    ensures Improves(G, sem, pre + Enc(u) + post, w)
  {
    hide Scan, Run, Eval, Typed, Enc;
    Replace(G, sem, pre, t, u, post);
  }

  /** So does one of equal length that is smaller at the first difference. */
  lemma LexImproves<D(!new)>(G: seq<Symbol>, sem: Sem<D>, w: seq<nat>, pre: seq<nat>, t: Term, u: Term,
      post: seq<nat>, j: nat)
    requires Around(G, w, pre, t, post) && Typed(G, u) && Eval(sem, u) == Eval(sem, t)
    requires Over(G, Enc(t)) && Over(G, Enc(u))
    requires LexAt(Mask(G, Enc(u)), Mask(G, Enc(t)), j) ||
             (Mask(G, Enc(u)) == Mask(G, Enc(t)) && LexAt(Enc(u), Enc(t), j))
    ensures Improves(G, sem, pre + Enc(u) + post, w)
  {
    hide Scan, Run, Eval, Typed, Enc;
    Replace(G, sem, pre, t, u, post);
    var v := pre + Enc(u) + post;
    OverParts(G, pre, Enc(t), post);
    MaskParts(G, pre, Enc(t), post);
    MaskParts(G, pre, Enc(u), post);
    if LexAt(Mask(G, Enc(u)), Mask(G, Enc(t)), j) {
      LexInContext(Mask(G, pre), Mask(G, Enc(u)), Mask(G, Enc(t)), Mask(G, post), j);
    } else {
      LexInContext(pre, Enc(u), Enc(t), post, j);
    }
  }

  lemma MaskParts(G: seq<Symbol>, x: seq<nat>, y: seq<nat>, z: seq<nat>)
    requires Over(G, x) && Over(G, y) && Over(G, z)
    ensures Over(G, x + y + z) && Mask(G, x + y + z) == Mask(G, x) + Mask(G, y) + Mask(G, z)
  {
  }

  lemma LexInContext(pre: seq<nat>, x: seq<nat>, y: seq<nat>, post: seq<nat>, j: nat)
    requires LexAt(x, y, j)
    ensures LexAt(pre + x + post, pre + y + post, |pre| + j)
  {
    var m := |pre| + j;
    assert (pre + x + post)[..m] == pre + x[..j];
    assert (pre + y + post)[..m] == pre + y[..j];
  }

  lemma SymbolLaws<D(!new)>(G: seq<Symbol>, sem: Sem<D>, s: nat)
    requires Lawful(G, sem) && s < |G|
    ensures G[s].noDouble ==> DoubleLaw(sem, s)
    ensures G[s].commutative ==> AC(sem, s)
    ensures G[s].idempotent ==> IdempotentLaw(sem, s)
  {
  }

  /** f(f(x)) is f(x) or x. */
  lemma ReduceDouble<D(!new)>(G: seq<Symbol>, sem: Sem<D>, w: seq<nat>, pre: seq<nat>, t: Term, post: seq<nat>)
      returns (v: seq<nat>)
    requires Around(G, w, pre, t, post) && Lawful(G, sem)
    requires G[t.s].noDouble && |Enc(t)| > 1 && Enc(t)[1] == t.s
    ensures Improves(G, sem, v, w)
  {
    SymbolLaws(G, sem, t.s);
    var c := t.t;
    assert Enc(t)[1] == Enc(c)[0] == c.s;
    assert t.Un? && Typed(G, c);
    var x := Eval(sem, c.t);
    if sem.un(t.s, sem.un(t.s, x)) == x {
      ShorterImproves(G, sem, w, pre, t, c.t, post);
      v := pre + Enc(c.t) + post;
    } else {
      ShorterImproves(G, sem, w, pre, t, c, post);
      v := pre + Enc(c) + post;
    }
  }

  /** Two leaves in the wrong order. */
  lemma ReducePair<D(!new)>(G: seq<Symbol>, sem: Sem<D>, w: seq<nat>, pre: seq<nat>, t: Term, post: seq<nat>)
      returns (v: seq<nat>)
    requires Around(G, w, pre, t, post) && Lawful(G, sem)
    requires G[t.s].commutative && |Enc(t)| == 3 && Enc(t)[1] > Enc(t)[2]
    ensures Improves(G, sem, v, w)
  {
    SymbolLaws(G, sem, t.s);
    SmallestTerms(t.l);
    SmallestTerms(t.r);
    var u := Bin(t.s, t.r, t.l);
    assert Enc(t) == [t.s, t.l.s, t.r.s] && Enc(u) == [t.s, t.r.s, t.l.s];
    EncOver(G, t);
    EncOver(G, u);
    assert Enc(u)[..1] == Enc(t)[..1];
    assert LexAt(Enc(u), Enc(t), 1);
    LexImproves(G, sem, w, pre, t, u, post, 1);
    v := pre + Enc(u) + post;
  }

  lemma SmallestTerms(t: Term)
    ensures |Enc(t)| >= 1 && (|Enc(t)| == 1 <==> t.Leaf?)
  {
  }

  /** What is known of the subterm when the chain test succeeds. */
  lemma ChainFacts(G: seq<Symbol>, t: Term)
    requires Typed(G, t) && Over(G, Enc(t)) && G[t.s].arity == 2 && IsChain(G, t.s, Enc(t))
    ensures ChainTerm(t.s, t) && Without(t.s, Enc(t)) == Leaves(t) && |Enc(t)| == 2 * |Leaves(t)| - 1
    ensures LeafWord(G, Leaves(t))
    ensures |Leaves(t)| >= 3
  {
    ChainIsTerm(G, t.s, t);
    ChainLeaves(t.s, t);
    LeavesTyped(G, t.s, t);
  }

  lemma FlatMeaning<D(!new)>(G: seq<Symbol>, sem: Sem<D>, t: Term)
    requires AC(sem, t.s) && ChainTerm(t.s, t)
    ensures Eval(sem, Comb(t.s, Leaves(t))) == Eval(sem, t)
  {
    CombMeaning(sem, t.s, Leaves(t));
    ChainMeaning(sem, t.s, t);
  }

  /** An operator that is not in front moves to the front. */
  lemma ReduceShape<D(!new)>(G: seq<Symbol>, sem: Sem<D>, w: seq<nat>, pre: seq<nat>, t: Term, post: seq<nat>)
      returns (v: seq<nat>)
    requires Around(G, w, pre, t, post) && Lawful(G, sem) && Over(G, Enc(t))
    requires G[t.s].commutative && IsChain(G, t.s, Enc(t)) && !CombOrder(Enc(t))
    ensures Improves(G, sem, v, w)
  {
    hide Concrete, Eval, Comb, Enc, Typed, AC, Improves, Lawful, CombOrder, Small;
    SymbolLaws(G, sem, t.s);
    ChainFacts(G, t);
    var ls := Leaves(t);
    var u := Comb(t.s, ls);
    CombShape(G, t.s, ls);
    FlatMeaning(G, sem, t);
    EncOver(G, u);
    var j := FirstLeaf(G, t, Enc(t));
    ShapeLex(G, t.s, ls, Enc(u), Enc(t), j);
    LexImproves(G, sem, w, pre, t, u, post, j);
    v := pre + Enc(u) + post;
  }

  lemma ShapeLex(G: seq<Symbol>, s: nat, ls: seq<nat>, x: seq<nat>, y: seq<nat>, j: nat)
    requires Over(G, x) && Over(G, y) && s < |G| && G[s].arity != 0 && |ls| > 0
    requires x == Rep(s, |ls| - 1) + ls && |y| == |x| && j < |ls| - 1 && G[y[j]].arity == 0
    requires forall k :: 0 <= k < j ==> G[y[k]].arity != 0
    ensures LexAt(Mask(G, x), Mask(G, y), j)
  {
    assert forall k :: 0 <= k <= j ==> x[k] == s;
    assert Mask(G, x)[..j] == Mask(G, y)[..j];
  }

  /** The first leaf of a chain whose operators are not all in front. */
  lemma FirstLeaf(G: seq<Symbol>, t: Term, w: seq<nat>) returns (j: nat)
    requires w == Enc(t) && Over(G, w) && G[t.s].arity == 2 && IsChain(G, t.s, w) && !CombOrder(w)
    ensures j < (|w| - 1) / 2 && G[w[j]].arity == 0
    ensures forall k :: 0 <= k < j ==> G[w[k]].arity != 0
  {
    hide Enc;
    j := 0;
    while G[w[j]].arity != 0
      invariant 0 <= j < (|w| - 1) / 2
      invariant forall k :: 0 <= k < j ==> G[w[k]].arity != 0
      decreases |w| - j
    {
      if j + 1 == (|w| - 1) / 2 {
        assert forall k :: 0 <= k <= j ==> w[k] == t.s;
      }
      j := j + 1;
    }
  }

  /** A chain in comb order is the left-nested chain over its leaves. */
  lemma CombOfChain(G: seq<Symbol>, t: Term)
    requires Typed(G, t) && Over(G, Enc(t)) && G[t.s].arity == 2 && IsChain(G, t.s, Enc(t)) && CombOrder(Enc(t))
    ensures ChainTerm(t.s, t) && t == Comb(t.s, Leaves(t))
    ensures Enc(t) == Rep(t.s, |Leaves(t)| - 1) + Leaves(t)
  {
    hide Typed, Comb, Enc, ChainTerm, IsChain, Leaves, LeafWord;
    ChainFacts(G, t);
    var ls, s := Leaves(t), t.s;
    FrontSplit(s, Enc(t), ls);
    CombShape(G, s, ls);
    assert Enc(t) + [] == Enc(Comb(s, ls)) + [];
    UniqueParse(G, t, Comb(s, ls), [], []);
  }

  lemma FrontSplit(s: nat, w: seq<nat>, ls: seq<nat>)
    requires |ls| > 1 && |w| == 2 * |ls| - 1 && w[0] == s && CombOrder(w) && Without(s, w) == ls
    ensures w == Rep(s, |ls| - 1) + ls
  {
    hide CombOrder, Without;
    var k := |ls| - 1;
    FrontIsOperator(w, s, k);
    assert w == Rep(s, k) + w[k..];
    WithoutConcat(s, Rep(s, k), w[k..]);
    WithoutRep(s, k);
    WithoutLength(s, w[k..]);
    assert [] + Without(s, w[k..]) == Without(s, w[k..]);
  }

  lemma FrontIsOperator(w: seq<nat>, s: nat, k: nat)
    requires |w| == 2 * k + 1 && k > 0 && w[0] == s && CombOrder(w)
    ensures w[..k] == Rep(s, k)
  {
    var i := 1;
    while i < k
      invariant 1 <= i <= k && forall m :: 0 <= m < i ==> w[m] == s
    {
      assert w[i - 1] == w[i];
      i := i + 1;
    }
  }

  lemma {:induction false} WithoutRep(s: nat, k: nat)
    ensures Without(s, Rep(s, k)) == []
  {
    if k > 0 {
      assert Rep(s, k)[1..] == Rep(s, k - 1);
      WithoutRep(s, k - 1);
    }
  }

  lemma {:induction false} WithoutLength(s: nat, w: seq<nat>)
    ensures |Without(s, w)| <= |w|
    ensures |Without(s, w)| == |w| ==> Without(s, w) == w
  {
    if w != [] {
      WithoutLength(s, w[1..]);
    }
  }

  /** Two neighbouring leaves of a left-nested chain in the wrong order. */
  lemma ReduceOrder<D(!new)>(G: seq<Symbol>, sem: Sem<D>, w: seq<nat>, pre: seq<nat>, t: Term, post: seq<nat>)
      returns (v: seq<nat>)
    requires Around(G, w, pre, t, post) && Lawful(G, sem) && Over(G, Enc(t))
    requires G[t.s].commutative && IsChain(G, t.s, Enc(t)) && CombOrder(Enc(t)) && !Sorted(Without(t.s, Enc(t)))
    ensures Improves(G, sem, v, w)
  {
    hide Concrete, Eval, Comb, Enc, AC, Improves, Lawful, CombOrder, Small, IsChain, Mask;
    SymbolLaws(G, sem, t.s);
    ChainFacts(G, t);
    CombOfChain(G, t);
    var ls, s := Leaves(t), t.s;
    var i :| 0 < i < |ls| && ls[i - 1] > ls[i];
    var ms := Swapped(ls, i);
    SwapFacts(G, s, ls, i);
    SwapMeaning(sem, s, ls, i);
    LexImproves(G, sem, w, pre, t, Comb(s, ms), post, |ls| - 1 + (i - 1));
    v := pre + Enc(Comb(s, ms)) + post;
  }

  function Swapped(ls: seq<nat>, i: nat): (ms: seq<nat>)
    requires 0 < i < |ls|
    ensures |ms| == |ls| && forall k :: 0 <= k < |ls| ==>
              ms[k] == ls[if k == i then i - 1 else if k == i - 1 then i else k]
  {
    ls[..i - 1] + [ls[i], ls[i - 1]] + ls[i + 1..]
  }

  lemma SwapMeaning<D(!new)>(sem: Sem<D>, s: nat, ls: seq<nat>, i: nat)
    requires AC(sem, s) && 0 < i < |ls|
    ensures Eval(sem, Comb(s, Swapped(ls, i))) == Eval(sem, Comb(s, ls))
  {
    hide Fold, AC;
    var x, z := ls[..i - 1], ls[i + 1..];
    assert ls == x + [ls[i - 1], ls[i]] + z;
    FoldSwap(sem, s, x, ls[i - 1], ls[i], z);
    CombMeaning(sem, s, ls);
    CombMeaning(sem, s, Swapped(ls, i));
  }

  lemma SwapFacts(G: seq<Symbol>, s: nat, ls: seq<nat>, i: nat)
    requires 0 < i < |ls| && ls[i - 1] > ls[i] && s < |G| && G[s].arity == 2
    requires LeafWord(G, ls)
    ensures Typed(G, Comb(s, Swapped(ls, i)))
    ensures Over(G, Enc(Comb(s, Swapped(ls, i)))) && Over(G, Enc(Comb(s, ls)))
    ensures Mask(G, Enc(Comb(s, Swapped(ls, i)))) == Mask(G, Enc(Comb(s, ls)))
    ensures LexAt(Enc(Comb(s, Swapped(ls, i))), Enc(Comb(s, ls)), |ls| - 1 + (i - 1))
  {
    hide Typed, Comb, Enc, Swapped, LexAt, Mask, Over, Rep, LeafWord;
    var ms := Swapped(ls, i);
    SwapLex(G, ls, i);
    CombShape(G, s, ls);
    CombShape(G, s, ms);
    SwapMask(G, s, ls, ms);
    LexBehind(Rep(s, |ls| - 1), ms, ls, i - 1);
  }

  lemma LexBehind(pre: seq<nat>, x: seq<nat>, y: seq<nat>, j: nat)
    requires LexAt(x, y, j)
    ensures LexAt(pre + x, pre + y, |pre| + j)
  {
    LexInContext(pre, x, y, [], j);
    assert pre + x + [] == pre + x && pre + y + [] == pre + y;
  }

  lemma SwapLex(G: seq<Symbol>, ls: seq<nat>, i: nat)
    requires 0 < i < |ls| && ls[i - 1] > ls[i]
    requires LeafWord(G, ls)
    ensures LexAt(Swapped(ls, i), ls, i - 1) && LeafWord(G, Swapped(ls, i))
  {
    assert Swapped(ls, i)[..i - 1] == ls[..i - 1];
  }

  lemma SwapMask(G: seq<Symbol>, s: nat, ls: seq<nat>, ms: seq<nat>)
    requires |ms| == |ls| > 0 && s < |G|
    requires LeafWord(G, ls) && LeafWord(G, ms)
    ensures Over(G, Rep(s, |ls| - 1) + ls) && Over(G, Rep(s, |ls| - 1) + ms)
    ensures Mask(G, Rep(s, |ls| - 1) + ms) == Mask(G, Rep(s, |ls| - 1) + ls)
  {
  }

  /** x o x is x. */
  lemma ReduceEqual<D(!new)>(G: seq<Symbol>, sem: Sem<D>, w: seq<nat>, pre: seq<nat>, t: Term, post: seq<nat>)
      returns (v: seq<nat>)
    requires Around(G, w, pre, t, post) && Lawful(G, sem)
    requires G[t.s].idempotent && t.Bin? && Enc(t.l) == Enc(t.r)
    ensures Improves(G, sem, v, w)
  {
    SymbolLaws(G, sem, t.s);
    UniqueParse(G, t.l, t.r, [], []);
    ShorterImproves(G, sem, w, pre, t, t.l, post);
    v := pre + Enc(t.l) + post;
  }

  lemma DropMeaning<D(!new)>(G: seq<Symbol>, sem: Sem<D>, t: Term, i: nat, j: nat)
    requires IdempotentLaw(sem, t.s) && ChainTerm(t.s, t)
    requires i < j < |Leaves(t)| && Leaves(t)[i] == Leaves(t)[j]
    ensures Eval(sem, Comb(t.s, Leaves(t)[..j] + Leaves(t)[j + 1..])) == Eval(sem, t)
  {
    FoldDrop(sem, t.s, Leaves(t), i, j);
    ChainMeaning(sem, t.s, t);
    CombMeaning(sem, t.s, Leaves(t)[..j] + Leaves(t)[j + 1..]);
  }

  /** A leaf that occurs twice in a chain. */
  lemma ReduceTwice<D(!new)>(G: seq<Symbol>, sem: Sem<D>, w: seq<nat>, pre: seq<nat>, t: Term, post: seq<nat>)
      returns (v: seq<nat>)
    requires Around(G, w, pre, t, post) && Lawful(G, sem) && Over(G, Enc(t))
    requires G[t.s].idempotent && IsChain(G, t.s, Enc(t)) && !Unique(Without(t.s, Enc(t)))
    ensures Improves(G, sem, v, w)
  {
    hide Concrete, Eval, Comb, Enc, IdempotentLaw, Improves, Lawful, Small, IsChain;
    SymbolLaws(G, sem, t.s);
    ChainFacts(G, t);
    var ls, s := Leaves(t), t.s;
    var i, j :| 0 <= i < j < |ls| && ls[i] == ls[j];
    var ms := ls[..j] + ls[j + 1..];
    assert LeafWord(G, ms);
    DropMeaning(G, sem, t, i, j);
    CombShape(G, s, ms);
    ShorterImproves(G, sem, w, pre, t, Comb(s, ms), post);
    v := pre + Enc(Comb(s, ms)) + post;
  }

  // --- The filter loses no meaning ------------------------------------------

  /** The symbol at position i and what follows it, read off the term there. */
  lemma AtPosition(G: seq<Symbol>, w: seq<nat>, i: nat) returns (t: Term, post: seq<nat>)
    requires Small(G) && Flags(G) && Concrete(G, w) && i < |w|
    ensures Around(G, w, w[..i], t, post) && w[i] == t.s && SubtreeAt(G, w, i) == Enc(t) && Over(G, Enc(t))
    ensures t.Un? ==> i + 1 < |w| && |Enc(t)| > 1 && w[i + 1] == Enc(t)[1]
    ensures t.Bin? ==> SubtreeAt(G, w, i + 1) == Enc(t.l) && i + 1 + |Enc(t.l)| < |w|
                       && SubtreeAt(G, w, i + 1 + |Enc(t.l)|) == Enc(t.r)
  {
    t, post := SubtreeIsTerm(G, w, i);
    EncOver(G, t);
    assert w[i] == w[i..][0];
    if t.Un? {
      assert w[i + 1] == w[i..][1];
    }
    if t.Bin? {
      BinaryParts(G, w, i, t, post);
    }
  }

  lemma BinaryParts(G: seq<Symbol>, w: seq<nat>, i: nat, t: Term, post: seq<nat>)
    requires Over(G, w) && i < |w| && Typed(G, t) && t.Bin? && w[i..] == Enc(t) + post
    ensures i + 1 + |Enc(t.l)| < |w|
    ensures SubtreeAt(G, w, i + 1) == Enc(t.l) && SubtreeAt(G, w, i + 1 + |Enc(t.l)|) == Enc(t.r)
  {
    hide SubtreeAt, Over;
    var n := |Enc(t.l)|;
    OverSlice(G, w, i + |Enc(t)|);
    assert post == w[i + |Enc(t)|..];
    Tail(G, t, post);
    assert w[i + 1..] == w[i..][1..];
    assert w[i + 1 + n..] == w[i + 1..][n..];
    SubtreePrefix(G, w, i + 1, t.l, Enc(t.r) + post);
    SubtreePrefix(G, w, i + 1 + n, t.r, post);
  }

  lemma OverSlice(G: seq<Symbol>, w: seq<nat>, i: nat)
    requires Over(G, w) && i <= |w|
    ensures Over(G, w[i..])
  {
  }

  lemma SubtreePrefix(G: seq<Symbol>, w: seq<nat>, i: nat, t: Term, rest: seq<nat>)
    requires Over(G, w) && i <= |w| && Typed(G, t) && Over(G, rest) && w[i..] == Enc(t) + rest
    ensures SubtreeAt(G, w, i) == Enc(t)
  {
    TermLengthTerm(G, t, rest, 0);
  }

  /** A word the filter drops has a simpler word with the same meaning. */
  lemma Reduce<D(!new)>(G: seq<Symbol>, sem: Sem<D>, w: seq<nat>) returns (v: seq<nat>)
    requires Small(G) && Flags(G) && Lawful(G, sem) && Concrete(G, w) && Duplicate(G, w)
    ensures Improves(G, sem, v, w)
  {
    hide Scan, Lawful, Improves, IsChain, CombOrder, Sorted, Unique, Without, SubtreeAt, Small, Enc;
    var i :| 0 <= i < |w| && DuplicateAt(G, w, i);
    var t, post := AtPosition(G, w, i);
    if DoubleAt(G, w, i) {
      v := ReduceDouble(G, sem, w, w[..i], t, post);
    } else if SwappedAt(G, w, i) {
      if |Enc(t)| == 3 && Enc(t)[1] > Enc(t)[2] {
        v := ReducePair(G, sem, w, w[..i], t, post);
      } else if !CombOrder(Enc(t)) {
        v := ReduceShape(G, sem, w, w[..i], t, post);
      } else {
        v := ReduceOrder(G, sem, w, w[..i], t, post);
      }
    } else if Enc(t.l) == Enc(t.r) {
      v := ReduceEqual(G, sem, w, w[..i], t, post);
    } else {
      v := ReduceTwice(G, sem, w, w[..i], t, post);
    }
  }

  /** Every accepted word has an accepted word that the filter keeps, no longer and
      with the same meaning. */
  lemma {:induction false} NormalForm<D(!new)>(G: seq<Symbol>, sem: Sem<D>, w: seq<nat>) returns (v: seq<nat>)
    requires Small(G) && Flags(G) && Lawful(G, sem) && Concrete(G, w)
    ensures Concrete(G, v) && !Duplicate(G, v) && |v| <= |w|
    ensures Run(G, sem, v) == Run(G, sem, w)
    decreases |w|, Value(2, Mask(G, w)), Value(|G|, w)
  {
    hide Lawful, Duplicate, Run, Scan, Small, Flags, Value;
    if Duplicate(G, w) {
      var u := Reduce(G, sem, w);
      SimplerDecreases(G, u, w);
      v := NormalForm(G, sem, u);
    } else {
      v := w;
    }
  }
}
