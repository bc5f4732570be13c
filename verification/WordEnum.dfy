/** The word enumerator: an odometer over the symbols, the count that accepts terms, the
    duplicate filter, and the evaluation of the current word. */
module WordEnum {
  import opened WordSyntax
  import opened Numbers
  import opened WordOrder
  import opened WordPrune

  /** The outcome of building the current word. */
  datatype Built<D> = Built(value: D) | Nothing | Unsupported

  function Outcome<D>(m: Machine<D>): Built<D> {
    match m
    case Values(vs) => if |vs| == 1 then Built(vs[0]) else Nothing
    case Underflow => Nothing
    case Unsupported => Built.Unsupported
  }

  /** The words among ws that are handed on. */
  function Kept(G: seq<Symbol>, ws: seq<seq<nat>>): seq<seq<nat>> {
    if ws == [] then []
    else
      var w := ws[|ws| - 1];
      Kept(G, ws[..|ws| - 1]) + (if Concrete(G, w) && !Duplicate(G, w) then [w] else [])
  }

  class Enumerator {
    const symbols: seq<Symbol>
    var stack: seq<nat>
    var used: seq<seq<nat>>
    ghost var seen: seq<seq<nat>>

    constructor (symbols: seq<Symbol>)
      ensures this.symbols == symbols && stack == [] && used == [] && seen == []
    {
      this.symbols := symbols;
      stack, used, seen := [], [], [];
    }

    method FormulaIsConcrete() returns (r: bool)
      requires Over(symbols, stack)
      ensures r <==> Concrete(symbols, stack)
    {
      var count, i := 1, 0;
      assert stack[0..] == stack;
      while i < |stack|
        invariant 0 <= i <= |stack| && count >= 0
        invariant Scan(symbols, stack, 1) == Scan(symbols, stack[i..], count)
      {
        assert stack[i..][1..] == stack[i + 1..];
        count := count - 1;
        if count < 0 {
          return false;
        }
        count := count + symbols[stack[i]].arity;
        i := i + 1;
      }
      return count == 0;
    }

    method GetSubtree(start: nat) returns (sub: seq<nat>)
      requires Small(symbols) && Concrete(symbols, stack) && start < |stack|
      ensures sub == SubtreeAt(symbols, stack, start)
    {
      var temporary := stack[start..];
      var count, j := 1, 0;
      assert temporary[0..] == temporary;
      while j < |temporary|
        invariant 0 <= j <= |temporary| && count >= 0
        invariant TermLength(symbols, temporary, 1) == j + TermLength(symbols, temporary[j..], count)
      {
        assert temporary[j..][1..] == temporary[j + 1..];
        count := count - 1;
        if count < 0 {
          break;
        }
        count := count + symbols[temporary[j]].arity;
        j := j + 1;
      }
      return temporary[..j];
    }

    method IsChainOfSameOperator(element: nat, tree: seq<nat>) returns (r: bool)
      requires Over(symbols, tree)
      ensures r <==> IsChain(symbols, element, tree)
    {
      if |tree| < 5 {
        return false;
      }
      for i := 0 to |tree|
        invariant forall k :: 0 <= k < i ==> tree[k] == element || symbols[tree[k]].arity == 0
      {
        if tree[i] != element && symbols[tree[i]].arity != 0 {
          return false;
        }
      }
      return true;
    }

    method OrderOfElementsIsCorrect(tree: seq<nat>) returns (r: bool)
      requires |tree| > 0
      ensures r <==> CombOrder(tree)
    {
      var portion := (|tree| - 1) / 2;
      var i := 1;
      while i < portion
        invariant 1 <= i && forall k :: 0 < k < i && k < portion ==> tree[k - 1] == tree[k]
      {
        if tree[i - 1] != tree[i] {
          return false;
        }
        i := i + 1;
      }
      return true;
    }

    /** The test of a commutative symbol at position i. */
    method CommutativeDuplicate(i: nat) returns (r: bool)
      requires Small(symbols) && Flags(symbols) && Concrete(symbols, stack) && i < |stack|
      requires symbols[stack[i]].commutative
      ensures r <==> SwappedAt(symbols, stack, i)
    {
      hide Scan, SubtreeAt;
      var sub := GetSubtree(i);
      SubtreeOver(symbols, stack, i);
      if |sub| == 3 && sub[1] > sub[2] {
        return true;
      }
      var chain := IsChainOfSameOperator(stack[i], sub);
      if chain {
        var comb := OrderOfElementsIsCorrect(sub);
        if !comb {
          return true;
        }
        if !Sorted(Without(stack[i], sub)) {
          return true;
        }
      }
      return false;
    }

    /** The test of an idempotent symbol at position i. */
    method IdempotentDuplicate(i: nat) returns (r: bool)
      requires Small(symbols) && Flags(symbols) && Concrete(symbols, stack) && i < |stack|
      requires symbols[stack[i]].idempotent
      ensures r <==> RepeatedAt(symbols, stack, i)
    {
      hide Scan, SubtreeAt;
      ghost var t, post := AtPosition(symbols, stack, i);
      SubtreeOver(symbols, stack, i);
      var left := GetSubtree(i + 1);
      var right := GetSubtree(i + 1 + |left|);
      if left == right {
        return true;
      }
      var sub := GetSubtree(i);
      var chain := IsChainOfSameOperator(stack[i], sub);
      return chain && !Unique(Without(stack[i], sub));
    }

    method FormulaIsDuplicate() returns (r: bool)
      requires Small(symbols) && Flags(symbols) && Concrete(symbols, stack)
      ensures r <==> Duplicate(symbols, stack)
    {
      hide Scan, SwappedAt, RepeatedAt, Small;
      for i := 0 to |stack|
        invariant forall k :: 0 <= k < i ==> !DuplicateAt(symbols, stack, k)
      {
        assert DuplicateAt(symbols, stack, i) ==> Duplicate(symbols, stack);
        if symbols[stack[i]].noDouble {
          ghost var t, post := AtPosition(symbols, stack, i);
          if stack[i + 1] == stack[i] {
            return true;
          }
        }
        if symbols[stack[i]].commutative {
          var swapped := CommutativeDuplicate(i);
          if swapped {
            return true;
          }
        }
        if symbols[stack[i]].idempotent {
          var repeated := IdempotentDuplicate(i);
          if repeated {
            return true;
          }
        }
        NotFlagged(symbols, stack, i);
      }
      return false;
    }

    /** Evaluates the current word on a value stack, from right to left. */
    method ToEnumerationType<D>(sem: Sem<D>) returns (r: Built<D>)
      requires Over(symbols, stack)
      ensures r == Outcome(Run(symbols, sem, stack))
      ensures Small(symbols) ==> if Concrete(symbols, stack) then r.Built? else r == Nothing
      ensures Small(symbols) ==> forall t :: Typed(symbols, t) && Enc(t) == stack ==> r == Built(Eval(sem, t))
    {
      hide Small, Concrete;
      BuiltExactly(symbols, sem, stack);
      var components: seq<D> := [];
      var i := |stack|;
      while i > 0
        invariant 0 <= i <= |stack|
        invariant Run(symbols, sem, stack[i..]) == Values(components)
      {
        i := i - 1;
        var s := stack[i];
        assert stack[i..][1..] == stack[i + 1..];
        assert Run(symbols, sem, stack[i..]) == Step(symbols, sem, s, Values(components));
        if |components| < symbols[s].arity {
          FailsFrom(symbols, sem, stack, i);
          return Nothing;
        }
        var n := |components|;
        if symbols[s].arity == 0 {
          components := components + [sem.leaf(s)];
        } else if symbols[s].arity == 1 {
          var child := components[n - 1];
          components := components[..n - 1];
          components := components + [sem.un(s, child)];
        } else if symbols[s].arity == 2 {
          var child0 := components[n - 1];
          components := components[..n - 1];
          var child1 := components[n - 2];
          components := components[..n - 2];
          components := components + [sem.bin(s, child0, child1)];
        } else {
          FailsFrom(symbols, sem, stack, i);
          return Built.Unsupported;
        }
      }
      assert stack[0..] == stack;
      return if |components| == 1 then Built(components[0]) else Nothing;
    }

    /** Turns the odometer: the last digit that is not full goes up and the full
        digits behind it start again; if all are full the word grows. */
    method IncreaseStack()
      requires |symbols| > 0 && Over(symbols, stack)
      modifies `stack
      ensures Over(symbols, stack) && Follows(|symbols|, old(stack), stack)
    {
      var increased := false;
      var i := |stack|;
      while i > 0 && !increased
        invariant 0 <= i <= |stack| == |old(stack)|
        invariant !increased ==> stack == old(stack)[..i] + Zeros(|stack| - i)
        invariant !increased ==> old(stack) == old(stack)[..i] + Full(|symbols|, |stack| - i)
        invariant increased ==> Over(symbols, stack) && Follows(|symbols|, old(stack), stack)
        decreases i
      {
        i := i - 1;
        ghost var z := |stack| - (i + 1);
        if stack[i] == |symbols| - 1 {
          stack := stack[i := 0];
          OneMoreFull(|symbols|, old(stack), i);
        } else {
          ghost var p := old(stack)[..i + 1];
          stack := stack[i := stack[i] + 1];
          increased := true;
          IncreasedFollows(|symbols|, old(stack), stack, i);
        }
      }
      if !increased {
        stack := stack + [0];
        AllFull(|symbols|, old(stack), stack);
      }
    }

    /** One run of the loop shared by both forms of enumerate. */
    method Loop(maxCost: nat)
      requires |symbols| > 0 && Over(symbols, stack) && Small(symbols) && Flags(symbols)
      modifies this
      ensures seen == old(seen) + After(|symbols|, old(stack), maxCost)
      ensures used == old(used) + Kept(symbols, After(|symbols|, old(stack), maxCost))
      ensures stack == if |old(stack)| <= maxCost then Zeros(maxCost + 1) else old(stack)
    {
      hide Concrete, Duplicate, Small, Flags, Follows, After, Kept;
      NothingAfter(|symbols|, stack, maxCost);
      KeptSnoc(symbols, [], stack);
      ghost var all, done := After(|symbols|, stack, maxCost), [];
      while maxCost >= |stack|
        invariant Over(symbols, stack)
        invariant done + After(|symbols|, stack, maxCost) == all && seen == old(seen) + done
        invariant used == old(used) + Kept(symbols, done)
        invariant |stack| > maxCost ==> stack == if |old(stack)| <= maxCost then Zeros(maxCost + 1) else old(stack)
        decreases |After(|symbols|, stack, maxCost)|
      {
        ghost var w, later := stack, After(|symbols|, stack, maxCost);
        var concrete := FormulaIsConcrete();
        if concrete {
          var duplicate := FormulaIsDuplicate();
          if !duplicate {
            used := used + [stack];
          }
        }
        seen := seen + [stack];
        KeptSnoc(symbols, done, w);
        done := done + [w];
        IncreaseStack();
        AfterStep(|symbols|, w, stack, maxCost);
        FollowsGrows(|symbols|, w, stack);
        NothingAfter(|symbols|, stack, maxCost);
        assert later == [w] + After(|symbols|, stack, maxCost);
      }
      NothingAfter(|symbols|, stack, maxCost);
      assert done + [] == done;
    }

    /** Visits all words from the current one extended by minCost zeros. */
    method Enumerate(minCost: nat, maxCost: nat)
      requires |symbols| > 0 && Over(symbols, stack) && Small(symbols) && Flags(symbols)
      modifies this
      ensures seen == old(seen) + After(|symbols|, old(stack) + Zeros(minCost), maxCost)
      ensures used == old(used) + Kept(symbols, After(|symbols|, old(stack) + Zeros(minCost), maxCost))
      ensures Ordered(|symbols|, used[|old(used)|..])
      ensures forall w :: w in used[|old(used)|..] <==>
                && Concrete(symbols, w) && !Duplicate(symbols, w)
                && Reached(|symbols|, old(stack) + Zeros(minCost), maxCost, w)
      ensures var start := old(stack) + Zeros(minCost);
              stack == if |start| <= maxCost then Zeros(maxCost + 1) else start
    {
      for i := 0 to minCost
        invariant stack == old(stack) + Zeros(i) && seen == old(seen) && used == old(used)
      {
        stack := stack + [0];
        assert Zeros(i) + [0] == Zeros(i + 1);
      }
      Loop(maxCost);
      KeptAfter(symbols, old(stack) + Zeros(minCost), maxCost);
      assert used[|old(used)|..] == Kept(symbols, After(|symbols|, old(stack) + Zeros(minCost), maxCost));
    }

    /** The form without a lower bound starts with one symbol. */
    method EnumerateUpTo(maxCost: nat)
      requires |symbols| > 0 && Over(symbols, stack) && Small(symbols) && Flags(symbols)
      modifies this
      ensures seen == old(seen) + After(|symbols|, old(stack) + [0], maxCost)
      ensures used == old(used) + Kept(symbols, After(|symbols|, old(stack) + [0], maxCost))
    {
      stack := stack + [0];
      Loop(maxCost);
    }
  }

  /** A word of a term is built into the value of the term, and any other into nothing. */
  lemma BuiltExactly<D>(G: seq<Symbol>, sem: Sem<D>, w: seq<nat>)
    requires Over(G, w)
    ensures Small(G) ==> if Concrete(G, w) then Outcome(Run(G, sem, w)).Built? else Outcome(Run(G, sem, w)) == Nothing
    ensures Small(G) ==> forall t :: Typed(G, t) && Enc(t) == w ==> Outcome(Run(G, sem, w)) == Built(Eval(sem, t))
  {
    hide Concrete;
    if Small(G) {
      MachineAgrees(G, sem, w);
      Supported(G, sem, w);
    }
  }

  /** Without symbols of more than two children the machine does not meet one. */
  lemma {:induction false} Supported<D>(G: seq<Symbol>, sem: Sem<D>, w: seq<nat>)
    requires Small(G) && Over(G, w)
    ensures !Run(G, sem, w).Unsupported?
  {
    if w != [] {
      Supported(G, sem, w[1..]);
    }
  }

  lemma KeptSnoc(G: seq<Symbol>, ws: seq<seq<nat>>, w: seq<nat>)
    ensures Kept(G, []) == []
    ensures Kept(G, ws + [w]) == Kept(G, ws) + (if Concrete(G, w) && !Duplicate(G, w) then [w] else [])
  {
    assert (ws + [w])[..|ws|] == ws;
  }

  lemma SubtreeOver(G: seq<Symbol>, w: seq<nat>, i: nat)
    requires Over(G, w) && i <= |w|
    ensures Over(G, SubtreeAt(G, w, i))
    ensures i < |w| ==> |SubtreeAt(G, w, i)| > 0
  {
  }

  lemma NotFlagged(G: seq<Symbol>, w: seq<nat>, i: nat)
    requires Over(G, w) && i < |w|
    requires G[w[i]].noDouble ==> !DoubleAt(G, w, i)
    requires G[w[i]].commutative ==> !SwappedAt(G, w, i)
    requires G[w[i]].idempotent ==> !RepeatedAt(G, w, i)
    ensures !DuplicateAt(G, w, i)
  {
  }

  /** Once the machine has failed it stays failed. */
  lemma {:induction false} FailsFrom<D>(G: seq<Symbol>, sem: Sem<D>, w: seq<nat>, i: nat)
    requires Over(G, w) && i <= |w| && !Run(G, sem, w[i..]).Values?
    ensures Run(G, sem, w) == Run(G, sem, w[i..])
  {
    if i == 0 {
      assert w[0..] == w;
    } else {
      assert w[i - 1..][1..] == w[i..];
      FailsFrom(G, sem, w, i - 1);
    }
  }

  lemma OneMoreFull(b: nat, w: seq<nat>, i: nat)
    requires b > 0 && i < |w| && w[i] == b - 1
    requires w == w[..i + 1] + Full(b, |w| - (i + 1))
    ensures w == w[..i] + Full(b, |w| - i)
    ensures (w[..i + 1] + Zeros(|w| - (i + 1)))[i := 0] == w[..i] + Zeros(|w| - i)
  {
  }

  lemma IncreasedFollows(b: nat, w: seq<nat>, v: seq<nat>, i: nat)
    requires b > 0 && Digits(b, w) && i < |w| && w[i] < b - 1
    requires w == w[..i + 1] + Full(b, |w| - (i + 1))
    requires v == (w[..i + 1] + Zeros(|w| - (i + 1)))[i := w[i] + 1]
    ensures Digits(b, v) && Follows(b, w, v)
  {
    hide Value;
    var p, z := w[..i + 1], |w| - (i + 1);
    var p' := w[..i] + [w[i] + 1];
    assert p == w[..i] + [w[i]];
    ValueAppend(b, w[..i], w[i]);
    ValueAppend(b, w[..i], w[i] + 1);
    Carry(b, p, p', z);
    assert v == p' + Zeros(z);
    assert w[i] != Full(b, |w|)[i];
  }

  lemma AllFull(b: nat, w: seq<nat>, v: seq<nat>)
    requires b > 0 && w == w[..0] + Full(b, |w|) && v == w[..0] + Zeros(|w|) + [0]
    ensures Digits(b, v) && Follows(b, w, v)
  {
    assert v == Zeros(|w| + 1);
  }

  lemma NothingAfter(b: nat, w: seq<nat>, hi: nat)
    requires b > 0
    ensures |w| > hi ==> After(b, w, hi) == []
  {
  }

  lemma FollowsGrows(b: nat, w: seq<nat>, v: seq<nat>)
    requires b > 0 && Follows(b, w, v)
    ensures |v| == |w| || v == Zeros(|w| + 1)
  {
  }

  // --- The results ----------------------------------------------------------

  lemma {:induction false} KeptMembers(G: seq<Symbol>, ws: seq<seq<nat>>, w: seq<nat>)
    ensures w in Kept(G, ws) <==> w in ws && Concrete(G, w) && !Duplicate(G, w)
  {
    if ws != [] {
      KeptMembers(G, ws[..|ws| - 1], w);
      assert ws == ws[..|ws| - 1] + [ws[|ws| - 1]];
    }
  }

  /** Filtering keeps the order, and so that nothing is listed twice. */
  lemma {:induction false} KeptOrdered(G: seq<Symbol>, b: nat, ws: seq<seq<nat>>)
    requires Ordered(b, ws)
    ensures Ordered(b, Kept(G, ws))
  {
    hide Concrete, Duplicate, Before;
    if ws != [] {
      var n := |ws| - 1;
      KeptOrdered(G, b, ws[..n]);
      forall u | u in Kept(G, ws[..n]) ensures Before(b, u, ws[n]) {
        KeptMembers(G, ws[..n], u);
        var i :| 0 <= i < n && ws[i] == u;
      }
      OrderedAppend(b, Kept(G, ws[..n]), [ws[n]]);
      assert Kept(G, ws[..n]) + [] == Kept(G, ws[..n]);
    }
  }

  /** w comes at start or after it, and is no longer than hi. */
  predicate Reached(b: nat, start: seq<nat>, hi: nat, w: seq<nat>) {
    Digits(b, w) && |w| <= hi && (w == start || Before(b, start, w))
  }

  lemma AfterMembers(b: nat, start: seq<nat>, hi: nat, w: seq<nat>)
    requires b > 0 && Digits(b, start)
    ensures w in After(b, start, hi) <==> Reached(b, start, hi, w)
    ensures Ordered(b, After(b, start, hi))
  {
    hide WordsFrom, AllWords, Value;
    if |start| <= hi {
      var n, v := |start|, Value(b, start);
      WordsFromOrdered(b, n, v);
      AllWordsOrdered(b, n + 1, hi);
      forall x, y | x in WordsFrom(b, n, v) && y in AllWords(b, n + 1, hi) ensures Before(b, x, y) {
        WordsFromMembers(b, n, v, x);
        AllWordsMembers(b, n + 1, hi, y);
      }
      OrderedAppend(b, WordsFrom(b, n, v), AllWords(b, n + 1, hi));
      WordsFromMembers(b, n, v, w);
      AllWordsMembers(b, n + 1, hi, w);
      WordOfValue(b, start);
      if Digits(b, w) {
        WordOfValue(b, w);
      }
    }
  }

  lemma KeptAfter(G: seq<Symbol>, start: seq<nat>, hi: nat)
    requires |G| > 0 && Digits(|G|, start)
    ensures Ordered(|G|, Kept(G, After(|G|, start, hi)))
    ensures forall w :: w in Kept(G, After(|G|, start, hi)) <==>
              Concrete(G, w) && !Duplicate(G, w) && Reached(|G|, start, hi, w)
  {
    hide Scan, Duplicate, Reached, After;
    AfterMembers(|G|, start, hi, start);
    KeptOrdered(G, |G|, After(|G|, start, hi));
    forall w ensures w in Kept(G, After(|G|, start, hi)) <==>
        Concrete(G, w) && !Duplicate(G, w) && Reached(|G|, start, hi, w)
    {
      KeptMembers(G, After(|G|, start, hi), w);
      AfterMembers(|G|, start, hi, w);
    }
  }

  /** The words a fresh enumeration up to maxCost hands on. */
  function Offered(G: seq<Symbol>, maxCost: nat): seq<seq<nat>>
    requires |G| > 0
  {
    Kept(G, AllWords(|G|, 1, maxCost))
  }

  /** The filter loses no meaning: every accepted word up to the bound has a word that
      is offered, is no longer and has the same meaning. */
  lemma PruningLosesNothing<D(!new)>(G: seq<Symbol>, sem: Sem<D>, maxCost: nat, w: seq<nat>) returns (v: seq<nat>)
    requires |G| > 0 && Small(G) && Flags(G) && Lawful(G, sem)
    requires Concrete(G, w) && |w| <= maxCost
    ensures v in Offered(G, maxCost) && Concrete(G, v) && |v| <= |w|
    ensures Run(G, sem, v) == Run(G, sem, w)
  {
    hide Lawful, Duplicate, Run;
    v := NormalForm(G, sem, w);
    assert v != [];
    AllWordsMembers(|G|, 1, maxCost, v);
    KeptMembers(G, AllWords(|G|, 1, maxCost), v);
  }

  lemma KeptRange(G: seq<Symbol>, lo: nat, hi: nat)
    requires |G| > 0
    ensures Ordered(|G|, Kept(G, AllWords(|G|, lo, hi)))
    ensures forall w :: w in Kept(G, AllWords(|G|, lo, hi)) <==>
              lo <= |w| <= hi && Digits(|G|, w) && Concrete(G, w) && !Duplicate(G, w)
  {
    hide Concrete, Duplicate, AllWords;
    AllWordsOrdered(|G|, lo, hi);
    KeptOrdered(G, |G|, AllWords(|G|, lo, hi));
    forall w ensures w in Kept(G, AllWords(|G|, lo, hi)) <==>
        lo <= |w| <= hi && Digits(|G|, w) && Concrete(G, w) && !Duplicate(G, w)
    {
      KeptMembers(G, AllWords(|G|, lo, hi), w);
      AllWordsMembers(|G|, lo, hi, w);
    }
  }

  /** A fresh enumeration offers exactly those words. */
  method FreshEnumeration(G: seq<Symbol>, maxCost: nat) returns (used: seq<seq<nat>>)
    requires |G| > 0 && Small(G) && Flags(G)
    ensures used == Offered(G, maxCost) && Ordered(|G|, used)
    ensures forall w :: w in used <==>
              1 <= |w| <= maxCost && Digits(|G|, w) && Concrete(G, w) && !Duplicate(G, w)
  {
    hide Small, Flags, After, AllWords, Concrete, Duplicate;
    var e := new Enumerator(G);
    e.EnumerateUpTo(maxCost);
    assert [0] == Zeros(1);
    AfterZeros(|G|, 1, maxCost);
    assert [] + [0] == [0];
    assert [] + Offered(G, maxCost) == Offered(G, maxCost);
    used := e.used;
    KeptRange(G, 1, maxCost);
  }

  /** Enumerating lengths min to max on a fresh object visits exactly the words of
      those lengths, in order, each once. */
  method FreshRange(G: seq<Symbol>, minCost: nat, maxCost: nat) returns (used: seq<seq<nat>>, last: seq<nat>)
    requires |G| > 0 && Small(G) && Flags(G)
    ensures used == Kept(G, AllWords(|G|, minCost, maxCost)) && Ordered(|G|, used)
    ensures forall w :: w in used <==>
              minCost <= |w| <= maxCost && Digits(|G|, w) && Concrete(G, w) && !Duplicate(G, w)
    ensures minCost <= maxCost ==> last == Zeros(maxCost + 1)
  {
    hide Small, Flags, After, AllWords, Concrete, Duplicate;
    var e := new Enumerator(G);
    e.Enumerate(minCost, maxCost);
    AfterZeros(|G|, minCost, maxCost);
    assert [] + Zeros(minCost) == Zeros(minCost);
    assert [] + Kept(G, AllWords(|G|, minCost, maxCost)) == Kept(G, AllWords(|G|, minCost, maxCost));
    used, last := e.used, e.stack;
    KeptRange(G, minCost, maxCost);
  }
}
