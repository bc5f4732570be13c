/** Words over a grammar in Polish notation: the left-to-right arity count that
    accepts them, the right-to-left stack machine that evaluates them, and the
    terms both agree on. */
module WordSyntax {

  datatype Symbol = Symbol(arity: nat, noDouble: bool, commutative: bool, idempotent: bool)

  predicate Over(G: seq<Symbol>, w: seq<nat>) {
    forall i :: 0 <= i < |w| ==> w[i] < |G|
  }

  /** Every symbol takes at most two children. */
  predicate Small(G: seq<Symbol>) {
    forall s :: 0 <= s < |G| ==> G[s].arity <= 2
  }

  // --- Terms ----------------------------------------------------------------

  datatype Term = Leaf(s: nat) | Un(s: nat, t: Term) | Bin(s: nat, l: Term, r: Term)

  predicate Typed(G: seq<Symbol>, t: Term) {
    && t.s < |G|
    && match t
       case Leaf(s) => G[s].arity == 0
       case Un(s, c) => G[s].arity == 1 && Typed(G, c)
       case Bin(s, l, r) => G[s].arity == 2 && Typed(G, l) && Typed(G, r)
  }

  /** The word of a term: the symbol first, then the children from left to right. */
  function Enc(t: Term): (w: seq<nat>)
    ensures |w| > 0 && w[0] == t.s
  {
    match t
    case Leaf(s) => [s]
    case Un(s, c) => [s] + Enc(c)
    case Bin(s, l, r) => [s] + Enc(l) + Enc(r)
  }

  function EncAll(ts: seq<Term>): seq<nat> {
    if ts == [] then [] else Enc(ts[0]) + EncAll(ts[1..])
  }

  predicate AllTyped(G: seq<Symbol>, ts: seq<Term>) {
    forall i :: 0 <= i < |ts| ==> Typed(G, ts[i])
  }

  lemma {:induction false} EncOver(G: seq<Symbol>, t: Term)
    requires Typed(G, t)
    ensures Over(G, Enc(t))
  {
    match t
    case Leaf(s) =>
    case Un(s, c) => EncOver(G, c);
    case Bin(s, l, r) => EncOver(G, l); EncOver(G, r);
  }

  // --- The arity count ------------------------------------------------------

  /** Reading w with `count` terms outstanding uses up exactly those terms. */
  predicate Scan(G: seq<Symbol>, w: seq<nat>, count: int)
    requires Over(G, w)
  {
    if w == [] then count == 0
    else count >= 1 && Scan(G, w[1..], count - 1 + G[w[0]].arity)
  }

  predicate Concrete(G: seq<Symbol>, w: seq<nat>) {
    Over(G, w) && Scan(G, w, 1)
  }

  /** What is left of the word of a term after its first symbol. */
  lemma Tail(G: seq<Symbol>, t: Term, rest: seq<nat>)
    requires Typed(G, t) && Over(G, rest)
    ensures Over(G, Enc(t) + rest) && |Enc(t) + rest| > 0 && (Enc(t) + rest)[0] == t.s
    ensures t.Leaf? ==> (Enc(t) + rest)[1..] == rest && |Enc(t)| == 1
    ensures t.Un? ==> (Enc(t) + rest)[1..] == Enc(t.t) + rest && |Enc(t)| == 1 + |Enc(t.t)|
    ensures t.Bin? ==> (Enc(t) + rest)[1..] == Enc(t.l) + (Enc(t.r) + rest) && Over(G, Enc(t.r) + rest)
    ensures t.Bin? ==> |Enc(t)| == 1 + |Enc(t.l)| + |Enc(t.r)|
  {
    EncOver(G, t);
    OverConcat(G, Enc(t), rest);
    if t.Un? {
      DropFirst(t.s, Enc(t.t), [], rest);
      assert [t.s] + Enc(t.t) + [] == Enc(t);
    } else if t.Bin? {
      EncOver(G, t.r);
      OverConcat(G, Enc(t.r), rest);
      DropFirst(t.s, Enc(t.l), Enc(t.r), rest);
    }
  }

  lemma OverConcat(G: seq<Symbol>, x: seq<nat>, y: seq<nat>)
    requires Over(G, x) && Over(G, y)
    ensures Over(G, x + y)
  {
  }

  lemma DropFirst(s: nat, x: seq<nat>, y: seq<nat>, z: seq<nat>)
    ensures (([s] + x + y) + z)[1..] == x + (y + z) && [] + z == z
  {
  }

  lemma {:induction false} ScanTerm(G: seq<Symbol>, t: Term, rest: seq<nat>, c: nat)
    requires Typed(G, t) && Over(G, rest)
    ensures Over(G, Enc(t) + rest) && Scan(G, Enc(t) + rest, c + 1) == Scan(G, rest, c)
    decreases t
  {
    hide Over, Enc;
    Tail(G, t, rest);
    match t
    case Leaf(s) =>
    case Un(s, x) =>
      ScanTerm(G, x, rest, c);
    case Bin(s, l, r) =>
      ScanTerm(G, l, Enc(r) + rest, c + 1);
      ScanTerm(G, r, rest, c);
  }

  lemma {:induction false} ScanTerms(G: seq<Symbol>, ts: seq<Term>)
    requires AllTyped(G, ts)
    ensures Over(G, EncAll(ts)) && Scan(G, EncAll(ts), |ts|)
  {
    if ts != [] {
      ScanTerms(G, ts[1..]);
      ScanTerm(G, ts[0], EncAll(ts[1..]), |ts| - 1);
    }
  }

  /** Putting a symbol in front of a row of terms. */
  lemma PrefixSymbol(G: seq<Symbol>, w: seq<nat>, us: seq<Term>) returns (ts: seq<Term>)
    requires Small(G) && w != [] && w[0] < |G| && AllTyped(G, us) && EncAll(us) == w[1..] && |us| >= G[w[0]].arity
    ensures AllTyped(G, ts) && EncAll(ts) == w && |ts| == |us| + 1 - G[w[0]].arity
  {
    var s := w[0];
    assert w == [s] + EncAll(us);
    if G[s].arity == 0 {
      ts := [Leaf(s)] + us;
      assert ts[1..] == us;
    } else if G[s].arity == 1 {
      ts := [Un(s, us[0])] + us[1..];
      assert ts[1..] == us[1..];
    } else {
      ts := [Bin(s, us[0], us[1])] + us[2..];
      assert ts[1..] == us[2..] && us[1..][1..] == us[2..] && us[1..][0] == us[1];
      assert EncAll(us) == Enc(us[0]) + (Enc(us[1]) + EncAll(us[2..]));
    }
  }

  /** A word that passes the count is a row of terms. */
  lemma {:induction false} ScanParses(G: seq<Symbol>, w: seq<nat>, c: nat) returns (ts: seq<Term>)
    requires Small(G) && Over(G, w) && Scan(G, w, c)
    ensures AllTyped(G, ts) && |ts| == c && EncAll(ts) == w
    decreases |w|
  {
    hide AllTyped, Small;
    if w == [] {
      ts := [];
      NoTerms(G);
    } else {
      ts := ScanParses(G, w[1..], c - 1 + G[w[0]].arity);
      ts := PrefixSymbol(G, w, ts);
    }
  }

  lemma NoTerms(G: seq<Symbol>)
    ensures AllTyped(G, []) && EncAll([]) == []
  {
  }

  /** The count accepts exactly the words of terms. */
  lemma ConcreteIffTerm(G: seq<Symbol>, w: seq<nat>)
    requires Small(G)
    ensures Concrete(G, w) <==> exists t :: Typed(G, t) && Enc(t) == w
  {
    if Concrete(G, w) {
      var ts := ScanParses(G, w, 1);
      assert EncAll(ts[1..]) == [];
      assert Enc(ts[0]) == w;
    }
    if t :| Typed(G, t) && Enc(t) == w {
      ScanTerm(G, t, [], 0);
      assert Enc(t) + [] == w;
    }
  }

  /** A term is determined by its word, whatever follows it. */
  lemma {:induction false} UniqueParse(G: seq<Symbol>, t: Term, u: Term, x: seq<nat>, y: seq<nat>)
    requires Typed(G, t) && Typed(G, u) && Over(G, x) && Over(G, y) && Enc(t) + x == Enc(u) + y
    ensures t == u && x == y
    decreases t
  {
    hide Over, Enc;
    Tail(G, t, x);
    Tail(G, u, y);
    match t
    case Leaf(s) =>
    case Un(s, c) =>
      UniqueParse(G, c, u.t, x, y);
    case Bin(s, l, r) =>
      UniqueParse(G, l, u.l, Enc(r) + x, Enc(u.r) + y);
      UniqueParse(G, r, u.r, x, y);
  }

  // --- Meaning --------------------------------------------------------------

  /** What each symbol builds from the meanings of its children. */
  datatype Sem<!D> = Sem(leaf: nat -> D, un: (nat, D) -> D, bin: (nat, D, D) -> D)

  function Eval<D>(sem: Sem<D>, t: Term): D {
    match t
    case Leaf(s) => sem.leaf(s)
    case Un(s, c) => sem.un(s, Eval(sem, c))
    case Bin(s, l, r) => sem.bin(s, Eval(sem, l), Eval(sem, r))
  }

  /** The stack machine: a value stack, a stack underflow, or an unsupported arity. */
  datatype Machine<D> = Values(vs: seq<D>) | Underflow | Unsupported

  /** One symbol; the last value of the stack is its first child. */
  function Step<D>(G: seq<Symbol>, sem: Sem<D>, s: nat, m: Machine<D>): Machine<D>
    requires s < |G|
  {
    if !m.Values? then m
    else
      var n := |m.vs|;
      if n < G[s].arity then Underflow
      else if G[s].arity == 0 then Values(m.vs + [sem.leaf(s)])
      else if G[s].arity == 1 then Values(m.vs[..n - 1] + [sem.un(s, m.vs[n - 1])])
      else if G[s].arity == 2 then Values(m.vs[..n - 2] + [sem.bin(s, m.vs[n - 1], m.vs[n - 2])])
      else Unsupported
  }

  /** The machine reads the word from right to left. */
  function Run<D>(G: seq<Symbol>, sem: Sem<D>, w: seq<nat>): Machine<D>
    requires Over(G, w)
  {
    if w == [] then Values([]) else Step(G, sem, w[0], Run(G, sem, w[1..]))
  }

  lemma {:induction false} RunTerm<D>(G: seq<Symbol>, sem: Sem<D>, t: Term, rest: seq<nat>)
    requires Typed(G, t) && Over(G, rest) && Run(G, sem, rest).Values?
    ensures Over(G, Enc(t) + rest)
    ensures Run(G, sem, Enc(t) + rest) == Values(Run(G, sem, rest).vs + [Eval(sem, t)])
    decreases t
  {
    hide Over, Enc;
    Tail(G, t, rest);
    var vs := Run(G, sem, rest).vs;
    match t
    case Leaf(s) =>
    case Un(s, c) =>
      RunTerm(G, sem, c, rest);
      StepUn(G, sem, s, vs, Eval(sem, c));
    case Bin(s, l, r) =>
      RunTerm(G, sem, r, rest);
      RunTerm(G, sem, l, Enc(r) + rest);
      StepBin(G, sem, s, vs, Eval(sem, l), Eval(sem, r));
  }

  lemma StepUn<D>(G: seq<Symbol>, sem: Sem<D>, s: nat, vs: seq<D>, x: D)
    requires s < |G| && G[s].arity == 1
    ensures Step(G, sem, s, Values(vs + [x])) == Values(vs + [sem.un(s, x)])
  {
  }

  lemma StepBin<D>(G: seq<Symbol>, sem: Sem<D>, s: nat, vs: seq<D>, x: D, y: D)
    requires s < |G| && G[s].arity == 2
    ensures Step(G, sem, s, Values(vs + [y] + [x])) == Values(vs + [sem.bin(s, x, y)])
  {
    var st := vs + [y] + [x];
    assert st[..|st| - 2] == vs;
  }

  /** A run that does not fail has read a row of terms, one for each value. */
  lemma {:induction false} RunParses<D>(G: seq<Symbol>, sem: Sem<D>, w: seq<nat>) returns (ts: seq<Term>)
    requires Small(G) && Over(G, w) && Run(G, sem, w).Values?
    ensures AllTyped(G, ts) && EncAll(ts) == w && |ts| == |Run(G, sem, w).vs|
    decreases |w|
  {
    hide AllTyped, EncAll;
    if w == [] {
      ts := [];
      NoTerms(G);
    } else {
      ts := RunParses(G, sem, w[1..]);
      ts := PrefixSymbol(G, w, ts);
    }
  }

  /** The machine ends with exactly one value on exactly the words that pass the
      count, and the value is the meaning of the term. */
  lemma MachineAgrees<D>(G: seq<Symbol>, sem: Sem<D>, w: seq<nat>)
    requires Small(G) && Over(G, w)
    ensures Concrete(G, w) <==> Run(G, sem, w).Values? && |Run(G, sem, w).vs| == 1
    ensures forall t :: Typed(G, t) && Enc(t) == w ==> Run(G, sem, w) == Values([Eval(sem, t)])
  {
    forall t | Typed(G, t) && Enc(t) == w ensures Run(G, sem, w) == Values([Eval(sem, t)]) {
      RunTerm(G, sem, t, []);
      assert Enc(t) + [] == w;
    }
    ConcreteIffTerm(G, w);
    if Run(G, sem, w).Values? && |Run(G, sem, w).vs| == 1 {
      var ts := RunParses(G, sem, w);
      ScanTerms(G, ts);
    }
  }

  // --- Subterms -------------------------------------------------------------

  /** The length of the shortest prefix of w that completes `count` terms. */
  function TermLength(G: seq<Symbol>, w: seq<nat>, count: nat): (n: nat)
    requires Over(G, w)
    ensures n <= |w|
  {
    if w == [] || count == 0 then 0 else 1 + TermLength(G, w[1..], count - 1 + G[w[0]].arity)
  }

  lemma {:induction false} TermLengthTerm(G: seq<Symbol>, t: Term, rest: seq<nat>, c: nat)
    requires Typed(G, t) && Over(G, rest)
    ensures Over(G, Enc(t) + rest)
    ensures TermLength(G, Enc(t) + rest, c + 1) == |Enc(t)| + TermLength(G, rest, c)
    decreases t
  {
    hide Over, Enc;
    Tail(G, t, rest);
    match t
    case Leaf(s) =>
    case Un(s, x) =>
      TermLengthTerm(G, x, rest, c);
    case Bin(s, l, r) =>
      TermLengthTerm(G, l, Enc(r) + rest, c + 1);
      TermLengthTerm(G, r, rest, c);
  }

  /** The subtree that starts at position i. */
  function SubtreeAt(G: seq<Symbol>, w: seq<nat>, i: nat): (u: seq<nat>)
    requires Over(G, w) && i <= |w|
  {
    w[i..][..TermLength(G, w[i..], 1)]
  }

  /** A first term that is no leaf may be replaced by its parts: only its symbol goes. */
  lemma OpenFirst(G: seq<Symbol>, ts: seq<Term>) returns (us: seq<Term>)
    requires AllTyped(G, ts) && |ts| > 0 && |Enc(ts[0])| > 1
    ensures AllTyped(G, us) && |EncAll(ts)| == 1 + |EncAll(us)| && EncAll(ts)[1..] == EncAll(us)
  {
    var rest := EncAll(ts[1..]);
    match ts[0] {
      case Leaf(s) => us := [];
      case Un(s, c) =>
        us := [c] + ts[1..];
        assert us[1..] == ts[1..];
        assert EncAll(ts) == [s] + EncAll(us);
      case Bin(s, l, r) =>
        us := [l, r] + ts[1..];
        assert us[1..] == [r] + ts[1..] && us[1..][1..] == ts[1..];
        assert EncAll(us) == Enc(l) + (Enc(r) + rest);
        assert EncAll(ts) == [s] + EncAll(us);
    }
  }

  /** Every position of a row of terms starts a term. */
  lemma {:induction false} TermAt(G: seq<Symbol>, ts: seq<Term>, i: nat) returns (t: Term, post: seq<nat>)
    requires AllTyped(G, ts) && i < |EncAll(ts)|
    ensures Typed(G, t) && EncAll(ts)[i..] == Enc(t) + post
    decreases |EncAll(ts)|
  {
    hide Enc, Typed;
    var w := EncAll(ts);
    var t0, rest := ts[0], EncAll(ts[1..]);
    if i == 0 {
      t, post := t0, rest;
      assert w[0..] == w;
    } else if i >= |Enc(t0)| {
      t, post := TermAt(G, ts[1..], i - |Enc(t0)|);
      assert w[i..] == rest[i - |Enc(t0)|..];
    } else {
      var us := OpenFirst(G, ts);
      t, post := TermAt(G, us, i - 1);
      assert w[i..] == w[1..][i - 1..];
    }
  }

  /** At every position of an accepted word exactly one term starts, and SubtreeAt
      returns its word. */
  lemma SubtreeIsTerm(G: seq<Symbol>, w: seq<nat>, i: nat) returns (t: Term, post: seq<nat>)
    requires Small(G) && Concrete(G, w) && i < |w|
    ensures Typed(G, t) && w == w[..i] + Enc(t) + post && w[i..] == Enc(t) + post
    ensures SubtreeAt(G, w, i) == Enc(t)
    ensures forall u, rest :: Typed(G, u) && w[i..] == Enc(u) + rest ==> u == t
  {
    var ts := ScanParses(G, w, 1);
    t, post := TermAt(G, ts, i);
    assert w == w[..i] + w[i..];
    EncOver(G, t);
    assert Over(G, w[i..]);
    assert post == w[i..][|Enc(t)|..];
    TermLengthTerm(G, t, post, 0);
    forall u, rest | Typed(G, u) && w[i..] == Enc(u) + rest ensures u == t {
      assert rest == w[i..][|Enc(u)|..];
      UniqueParse(G, u, t, rest, post);
    }
  }
}
