/** The +- property: which ordered pairs of edges (i, j) have no Hamiltonian cycle
    that avoids i and uses j. Every cycle found answers many pairs at once. */
module HamPairs {
  import opened CubGraph
  import opened CubNumbering
  import opened HamSearch

  /** Some Hamiltonian cycle avoids i and uses j. */
  ghost predicate Separates(G: Cub, i: int, j: int)
    requires Sized(G)
  {
    exists c :: IsHamCycle(G, c) && !Uses(G, c, i) && Uses(G, c, j)
  }

  ghost predicate Bad(G: Cub, i: int, j: int)
    requires Sized(G)
  {
    i != j && !Separates(G, i, j)
  }

  /** The bad pairs (i, 0), ..., (i, n - 1), in this order. */
  ghost function BadInRow(G: Cub, i: int, n: nat): seq<(int, int)>
    requires Sized(G)
  {
    if n == 0 then [] else BadInRow(G, i, n - 1) + (if Bad(G, i, n - 1) then [(i, n - 1)] else [])
  }

  /** All bad pairs whose first edge is below n, row by row. */
  ghost function BadPairs(G: Cub, n: nat): seq<(int, int)>
    requires Sized(G)
  {
    if n == 0 then [] else BadPairs(G, n - 1) + BadInRow(G, n - 1, G.ne)
  }

  /** The list contains exactly the bad pairs. */
  lemma {:induction false} BadInRowMembers(G: Cub, i: int, n: nat, a: int, b: int)
    requires Sized(G)
    ensures (a, b) in BadInRow(G, i, n) <==> a == i && 0 <= b < n && Bad(G, a, b)
  {
    if n > 0 {
      BadInRowMembers(G, i, n - 1, a, b);
    }
  }

  lemma {:induction false} BadPairsMembers(G: Cub, n: nat, a: int, b: int)
    requires Sized(G)
    ensures (a, b) in BadPairs(G, n) <==> 0 <= a < n && 0 <= b < G.ne && Bad(G, a, b)
  {
    hide Bad, BadInRow;
    if n > 0 {
      BadPairsMembers(G, n - 1, a, b);
      BadInRowMembers(G, n - 1, G.ne, a, b);
    }
  }

  predicate Before(p: (int, int), q: (int, int)) {
    p.0 < q.0 || (p.0 == q.0 && p.1 < q.1)
  }

  ghost predicate Ordered(s: seq<(int, int)>) {
    forall k, l :: 0 <= k < l < |s| ==> Before(s[k], s[l])
  }

  lemma OrderedAppend(s: seq<(int, int)>, t: seq<(int, int)>)
    requires Ordered(s) && Ordered(t) && forall p, q :: p in s && q in t ==> Before(p, q)
    ensures Ordered(s + t)
  {
    forall k, l | 0 <= k < l < |s + t| ensures Before((s + t)[k], (s + t)[l]) {
      if k < |s| <= l {
        assert s[k] in s && t[l - |s|] in t;
      }
    }
  }

  lemma {:induction false} BadInRowOrdered(G: Cub, i: int, n: nat)
    requires Sized(G)
    ensures Ordered(BadInRow(G, i, n))
  {
    hide Bad, Sized;
    if n > 0 {
      BadInRowOrdered(G, i, n - 1);
      var last := (i, n - 1);
      forall p | p in BadInRow(G, i, n - 1) ensures Before(p, last) {
        BadInRowMembers(G, i, n - 1, p.0, p.1);
      }
      OrderedAppend(BadInRow(G, i, n - 1), if Bad(G, i, n - 1) then [(i, n - 1)] else []);
    }
  }

  /** The list is in lexicographic order, so no pair is listed twice. */
  lemma {:induction false} BadPairsOrdered(G: Cub, n: nat)
    requires Sized(G)
    ensures Ordered(BadPairs(G, n))
  {
    hide Bad, Sized, BadInRow;
    if n > 0 {
      BadPairsOrdered(G, n - 1);
      BadInRowOrdered(G, n - 1, G.ne);
      forall p, q | p in BadPairs(G, n - 1) && q in BadInRow(G, n - 1, G.ne) ensures Before(p, q) {
        BadPairsMembers(G, n - 1, p.0, p.1);
        BadInRowMembers(G, n - 1, G.ne, q.0, q.1);
      }
      OrderedAppend(BadPairs(G, n - 1), BadInRow(G, n - 1, G.ne));
    }
  }

  lemma {:induction false} BadInRowSkip(G: Cub, i: int, m: nat, n: nat)
    requires Sized(G) && m <= n
    requires forall b :: m <= b < n ==> !Bad(G, i, b)
    ensures BadInRow(G, i, n) == BadInRow(G, i, m)
  {
    if m < n {
      BadInRowSkip(G, i, m, n - 1);
      assert !Bad(G, i, n - 1);
    }
  }

  lemma {:induction false} BadInRowPrefix(G: Cub, i: int, m: nat, n: nat)
    requires Sized(G) && m <= n
    ensures BadInRow(G, i, m) <= BadInRow(G, i, n)
  {
    if m < n {
      BadInRowPrefix(G, i, m, n - 1);
    }
  }

  lemma {:induction false} BadPairsPrefix(G: Cub, m: nat, n: nat)
    requires Sized(G) && m <= n
    ensures BadPairs(G, m) <= BadPairs(G, n)
  {
    if m < n {
      BadPairsPrefix(G, m, n - 1);
    }
  }

  /** The next member of row i of the to-do matrix after j, or -1. */
  method NextElement(todo: array2<bool>, i: int, j: int) returns (k: int)
    requires 0 <= i < todo.Length0 && -1 <= j < todo.Length1
    ensures k == -1 || (j < k < todo.Length1 && todo[i, k])
    ensures forall b :: j < b < (if k == -1 then todo.Length1 else k) ==> !todo[i, b]
  {
    k := j + 1;
    while k < todo.Length1 && !todo[i, k]
      invariant j < k <= todo.Length1
      invariant forall b :: j < b < k ==> !todo[i, b]
    {
      k := k + 1;
    }
    if k == todo.Length1 {
      k := -1;
    }
  }

  /** Off the diagonal, every pair no longer to do is separated by some cycle. */
  ghost predicate Answered(G: Cub, todo: array2<bool>, i: int, j: int)
    requires Sized(G) && todo.Length0 == todo.Length1 == G.ne
    reads todo
  {
    forall a, b :: 0 <= a < G.ne && 0 <= b < G.ne && (a > i || (a == i && b > j)) && !todo[a, b] ==> !Bad(G, a, b)
  }

  /** The pairs that the cycle with the given classes avoids and uses are done. */
  method CrossOff(todo: array2<bool>, i: int, outclass: seq<int>)
    requires todo.Length0 == todo.Length1 == |outclass| && 0 <= i <= |outclass|
    modifies todo
    ensures forall a, b :: 0 <= a < |outclass| && 0 <= b < |outclass| ==>
              todo[a, b] == (old(todo[a, b]) && !(a >= i && outclass[a] == NO && outclass[b] == YES))
  {
    var ne := |outclass|;
    var ii := i;
    while ii < ne
      invariant i <= ii <= ne
      invariant forall a, b :: 0 <= a < ne && 0 <= b < ne ==>
                  todo[a, b] == (old(todo[a, b]) && !(i <= a < ii && outclass[a] == NO && outclass[b] == YES))
    {
      if outclass[ii] == NO {
        var jj := 0;
        while jj < ne
          invariant 0 <= jj <= ne
          invariant forall a, b :: 0 <= a < ne && 0 <= b < ne ==>
                      todo[a, b] == (old(todo[a, b]) && !(i <= a < ii && outclass[a] == NO && outclass[b] == YES)
                                                     && !(a == ii && b < jj && outclass[b] == YES))
        {
          if outclass[jj] == YES {
            todo[ii, jj] := false;
          }
          jj := jj + 1;
        }
      }
      ii := ii + 1;
    }
  }

  /** One cycle avoids all edges classified NO and uses all classified YES. */
  ghost predicate AllSeparated(G: Cub, outclass: seq<int>)
    requires Sized(G) && |outclass| == G.ne
  {
    forall a, b :: (0 <= a < G.ne && 0 <= b < G.ne && outclass[a] == NO && outclass[b] == YES) ==> Separates(G, a, b)
  }

  /** Asks whether some cycle avoids i and uses j; `outclass` describes one. */
  method AskPair(search: Search, i: int, j: int) returns (found: bool, outclass: seq<int>)
    requires search.Valid() && search.G.nv > 0 && search.maxnodes == NO_LIMIT
    requires 0 <= i < search.G.ne && 0 <= j < search.G.ne && i != j
    modifies search, search.cls, search.din, search.dout, search.farend, search.onstack, search.stack
    ensures search.maxnodes == NO_LIMIT
    ensures found <==> Separates(search.G, i, j)
    ensures found ==> |outclass| == search.G.ne && outclass[i] == NO && outclass[j] == YES
    ensures found ==> AllSeparated(search.G, outclass)
  {
    hide Wf, IsHamCycle, Uses;
    var init := seq(search.G.ne, _ => DUNNO);
    init := init[i := NO];
    init := init[j := YES];
    var status, cycle;
    ghost var trees;
    status, cycle, outclass, trees := search.CubHam(init);
    found := status != NO;
  }

  function Cap(limit: int): int { if limit < 1 then 1 else limit }

  /** The list of bad pairs, cut off at `limit` (at least one). */
  ghost function FirstBad(G: Cub, limit: int): seq<(int, int)>
    requires Sized(G)
  {
    var all := BadPairs(G, G.ne);
    if |all| <= Cap(limit) then all else all[..Cap(limit)]
  }

  /** The endpoints reported for pair k are those of its edges. */
  ghost predicate PairAt(G: Cub, pairs: seq<(int, int)>, x0: seq<int>, x1: seq<int>, y0: seq<int>, y1: seq<int>,
      k: int) {
    && |G.v1| == |G.v2| == G.ne && |pairs| == |x0| == |x1| == |y0| == |y1| && 0 <= k < |pairs|
    && 0 <= pairs[k].0 < G.ne && 0 <= pairs[k].1 < G.ne
    && x0[k] == G.v1[pairs[k].0] && x1[k] == G.v2[pairs[k].0]
    && y0[k] == G.v1[pairs[k].1] && y1[k] == G.v2[pairs[k].1]
  }

  ghost predicate Reported(G: Cub, pairs: seq<(int, int)>, x0: seq<int>, x1: seq<int>, y0: seq<int>, y1: seq<int>) {
    && |pairs| == |x0| == |x1| == |y0| == |y1|
    && forall k :: 0 <= k < |pairs| ==> PairAt(G, pairs, x0, x1, y0, y1, k)
  }

  lemma ReportOne(G: Cub, pairs: seq<(int, int)>, x0: seq<int>, x1: seq<int>, y0: seq<int>, y1: seq<int>, i: int,
      j: int)
    requires Sized(G) && Reported(G, pairs, x0, x1, y0, y1) && 0 <= i < G.ne && 0 <= j < G.ne
    ensures Reported(G, pairs + [(i, j)], x0 + [G.v1[i]], x1 + [G.v2[i]], y0 + [G.v1[j]], y1 + [G.v2[j]])
  {
    forall k | 0 <= k < |pairs| + 1
      ensures PairAt(G, pairs + [(i, j)], x0 + [G.v1[i]], x1 + [G.v2[i]], y0 + [G.v1[j]], y1 + [G.v2[j]], k)
    {
      if k < |pairs| {
        assert PairAt(G, pairs, x0, x1, y0, y1, k);
      }
    }
  }

  /** The list after answering pair (i, j), all pairs since (i, last) being answered. */
  lemma RowStep(G: Cub, todo: array2<bool>, i: int, last: int, j: int)
    requires Sized(G) && todo.Length0 == todo.Length1 == G.ne && 0 <= i < G.ne && -1 <= last < j < G.ne
    requires Answered(G, todo, i, last) && todo[i, j] && forall b :: last < b < j ==> !todo[i, b]
    requires i != j
    ensures BadInRow(G, i, j + 1) == BadInRow(G, i, last + 1) + (if Separates(G, i, j) then [] else [(i, j)])
  {
    BadInRowSkip(G, i, last + 1, j);
  }

  lemma RowEnd(G: Cub, todo: array2<bool>, i: int, last: int)
    requires Sized(G) && todo.Length0 == todo.Length1 == G.ne && 0 <= i < G.ne && -1 <= last < G.ne
    requires Answered(G, todo, i, last) && forall b :: last < b < G.ne ==> !todo[i, b]
    ensures BadPairs(G, i) + BadInRow(G, i, last + 1) == BadPairs(G, i + 1)
    ensures Answered(G, todo, i + 1, -1)
  {
    BadInRowSkip(G, i, last + 1, G.ne);
  }

  lemma AnsweredMore(G: Cub, todo: array2<bool>, i: int, last: int, j: int)
    requires Sized(G) && todo.Length0 == todo.Length1 == G.ne && last <= j && Answered(G, todo, i, last)
    ensures Answered(G, todo, i, j)
  {
  }

  /** Crossing off the pairs a found cycle separates keeps the matrix truthful. */
  method CrossOffFound(search: Search, todo: array2<bool>, i: int, last: int, outclass: seq<int>)
    requires Sized(search.G) && todo.Length0 == todo.Length1 == search.G.ne == |outclass| && 0 <= i < search.G.ne
    requires AllSeparated(search.G, outclass) && Answered(search.G, todo, i, last) && Diagonal(todo)
    modifies todo
    ensures Answered(search.G, todo, i, last) && Diagonal(todo)
  {
    hide Sized, Separates;
    CrossOff(todo, i, outclass);
  }

  lemma AppendPrefix<T>(a: seq<T>, b: seq<T>, c: seq<T>)
    requires b <= c
    ensures a + b <= a + c
  {
    assert c == b + c[|b|..];
    assert a + c == (a + b) + c[|b|..];
  }

  lemma PrefixTrans<T>(a: seq<T>, b: seq<T>, c: seq<T>)
    requires a <= b && b <= c
    ensures a <= c
  {
  }

  lemma CutOff<T>(p: seq<T>, all: seq<T>, m: nat)
    requires p <= all && |p| == m
    ensures p == if |all| <= m then all else all[..m]
  {
  }

  lemma StopEarly(G: Cub, limit: int, i: nat, j: nat, pairs: seq<(int, int)>)
    requires Sized(G) && i < G.ne && j <= G.ne && pairs == BadPairs(G, i) + BadInRow(G, i, j)
    requires |pairs| == Cap(limit)
    ensures pairs == FirstBad(G, limit)
  {
    hide Sized, BadInRow;
    BadInRowPrefix(G, i, j, G.ne);
    AppendPrefix(BadPairs(G, i), BadInRow(G, i, j), BadInRow(G, i, G.ne));
    BadPairsPrefix(G, i + 1, G.ne);
    PrefixTrans(pairs, BadPairs(G, i + 1), BadPairs(G, G.ne));
    CutOff(pairs, BadPairs(G, G.ne), Cap(limit));
  }

  /** Works through row i of the matrix; stops when the limit is reached. */
  method DoRow(search: Search, todo: array2<bool>, i: int, limit: int,
               pairs0: seq<(int, int)>, a0: seq<int>, a1: seq<int>, b0: seq<int>, b1: seq<int>)
      returns (full: bool, pairs: seq<(int, int)>, x0: seq<int>, x1: seq<int>, y0: seq<int>, y1: seq<int>)
    requires search.Valid() && Sized(search.G) && search.G.nv > 0 && search.maxnodes == NO_LIMIT
    requires todo.Length0 == todo.Length1 == search.G.ne && 0 <= i < search.G.ne
    requires Diagonal(todo) && Answered(search.G, todo, i, -1)
    requires pairs0 == BadPairs(search.G, i) && |pairs0| < Cap(limit) && Reported(search.G, pairs0, a0, a1, b0, b1)
    modifies search, search.cls, search.din, search.dout, search.farend, search.onstack, search.stack, todo
    ensures search.maxnodes == NO_LIMIT && Reported(search.G, pairs, x0, x1, y0, y1)
    ensures full ==> pairs == FirstBad(search.G, limit)
    ensures !full ==> pairs == BadPairs(search.G, i + 1) && |pairs| < Cap(limit)
    ensures !full ==> Diagonal(todo) && Answered(search.G, todo, i + 1, -1)
  {
    hide Wf, Sized, Bad, BadPairs, BadInRow, Reported, Answered, AllSeparated, FirstBad, Separates;
    ghost var G := search.G;
    full, pairs, x0, x1, y0, y1 := false, pairs0, a0, a1, b0, b1;
    EmptyRow(G, i);
    ghost var last := -1;
    var j := NextElement(todo, i, -1);
    while j >= 0
      invariant j == -1 || (last < j < G.ne && todo[i, j])
      invariant -1 <= last < G.ne && forall b :: last < b < (if j == -1 then G.ne else j) ==> !todo[i, b]
      invariant search.maxnodes == NO_LIMIT && Diagonal(todo)
      invariant pairs == BadPairs(G, i) + BadInRow(G, i, last + 1) && |pairs| < Cap(limit)
      invariant Reported(G, pairs, x0, x1, y0, y1)
      invariant Answered(G, todo, i, last)
      decreases G.ne - last
    {
      RowStep(G, todo, i, last, j);
      AnsweredMore(G, todo, i, last, j);
      var found, outclass := AskPair(search, i, j);
      if !found {
        EdgeTables(G);
        ReportOne(G, pairs, x0, x1, y0, y1, i, j);
        pairs := pairs + [(i, j)];
        x0, x1 := x0 + [search.G.v1[i]], x1 + [search.G.v2[i]];
        y0, y1 := y0 + [search.G.v1[j]], y1 + [search.G.v2[j]];
        assert pairs == BadPairs(G, i) + BadInRow(G, i, j + 1);
        if |pairs| >= limit {
          StopEarly(G, limit, i, j + 1, pairs);
          full := true;
          return;
        }
      } else {
        CrossOffFound(search, todo, i, j, outclass);
        assert pairs == BadPairs(G, i) + BadInRow(G, i, j + 1);
      }
      last := j;
      j := NextElement(todo, i, j);
    }
    RowEnd(G, todo, i, last);
  }

  /** No edge is ever paired with itself. */
  ghost predicate Diagonal(todo: array2<bool>)
    reads todo
  {
    forall a :: 0 <= a < todo.Length0 && a < todo.Length1 ==> !todo[a, a]
  }

  lemma EmptyRow(G: Cub, i: int)
    requires Sized(G)
    ensures BadInRow(G, i, 0) == []
  {
  }

  lemma EdgeTables(G: Cub)
    requires Sized(G)
    ensures |G.v1| == |G.v2| == G.ne
  {
  }

  /** The pairs are bad, in order and within the limit; a bad pair that is missing comes
      after all of them, and only when the limit is reached. */
  ghost predicate FirstBadPairs(G: Cub, limit: int, pairs: seq<(int, int)>)
    requires Sized(G)
  {
    var most := if limit < 1 then 1 else limit;
    && Ordered(pairs) && |pairs| <= most
    && (forall p :: p in pairs ==> 0 <= p.0 < G.ne && 0 <= p.1 < G.ne && Bad(G, p.0, p.1))
    && forall i, j :: 0 <= i < G.ne && 0 <= j < G.ne && Bad(G, i, j) && (i, j) !in pairs ==>
         |pairs| == most && forall p :: p in pairs ==> Before(p, (i, j))
  }

  lemma FirstBadIsFirst(G: Cub, limit: int)
    requires Sized(G)
    ensures FirstBadPairs(G, limit, FirstBad(G, limit))
  {
    hide Bad, BadPairs, Sized;
    var all, pairs := BadPairs(G, G.ne), FirstBad(G, limit);
    BadPairsOrdered(G, G.ne);
    forall p | p in pairs ensures 0 <= p.0 < G.ne && 0 <= p.1 < G.ne && Bad(G, p.0, p.1) {
      assert p in all;
      BadPairsMembers(G, G.ne, p.0, p.1);
    }
    forall i, j | 0 <= i < G.ne && 0 <= j < G.ne && Bad(G, i, j) && (i, j) !in pairs
      ensures |pairs| == Cap(limit) && forall p :: p in pairs ==> Before(p, (i, j))
    {
      BadPairsMembers(G, G.ne, i, j);
      var l :| 0 <= l < |all| && all[l] == (i, j);
      assert forall k :: 0 <= k < |pairs| ==> all[k] == pairs[k] && all[k] in pairs;
      forall p | p in pairs ensures Before(p, (i, j)) {
        var k :| 0 <= k < |pairs| && pairs[k] == p;
        assert all[k] == p;
      }
    }
  }

  lemma Answers(G: Cub, limit: int, pairs: seq<(int, int)>)
    requires Sized(G) && pairs == FirstBad(G, limit)
    ensures FirstBadPairs(G, limit, pairs)
    ensures limit >= 1 ==> |pairs| <= limit
    ensures |pairs| < limit ==> forall i, j :: (i, j) in pairs <==> 0 <= i < G.ne && 0 <= j < G.ne && Bad(G, i, j)
  {
    hide FirstBad, Bad, Ordered;
    FirstBadIsFirst(G, limit);
    forall i, j | (i, j) in pairs ensures 0 <= i < G.ne && 0 <= j < G.ne && Bad(G, i, j) {
      var p := (i, j);
      assert p in pairs;
    }
  }

  /** Returns the bad pairs in order, at most max(limit, 1) of them, with the ends of
      their edges. */
  method HasInOut(g: seq<seq<int>>, ne: nat, limit: int)
      returns (G: Cub, pairs: seq<(int, int)>, x0: seq<int>, x1: seq<int>, y0: seq<int>, y1: seq<int>)
    requires Simple(g) && |g| > 0 && ne == EdgeCount(g)
    ensures Wf(G) && G.g == g && G.ne == ne
    ensures pairs == FirstBad(G, limit)
    ensures FirstBadPairs(G, limit, pairs)
    ensures limit >= 1 ==> |pairs| <= limit
    ensures |pairs| < limit ==> forall i, j :: (i, j) in pairs <==> 0 <= i < ne && 0 <= j < ne && Bad(G, i, j)
    ensures Reported(G, pairs, x0, x1, y0, y1)
  {
    hide Wf, Sized, Bad, Answered, BadPairs, BadInRow, Simple, FirstBad, Reported, FirstBadPairs;
    var eno, v1, v2 := CubInit(g, ne);
    G := Cub(|g|, ne, g, eno, v1, v2);
    WfSized(G);
    var search := new Search(G, NO_LIMIT);
    var todo := new bool[ne, ne]((a, b) => a != b);
    pairs, x0, x1, y0, y1 := [], [], [], [], [];
    StartRows(G, todo);
    var i := 0;
    while i < ne
      invariant 0 <= i <= ne && search.maxnodes == NO_LIMIT
      invariant pairs == BadPairs(G, i) && |pairs| < Cap(limit)
      invariant Reported(G, pairs, x0, x1, y0, y1)
      invariant Diagonal(todo) && Answered(G, todo, i, -1)
    {
      var full;
      full, pairs, x0, x1, y0, y1 := DoRow(search, todo, i, limit, pairs, x0, x1, y0, y1);
      if full {
        Answers(G, limit, pairs);
        return;
      }
      i := i + 1;
    }
    AllRows(G, limit, pairs);
    Answers(G, limit, pairs);
  }

  lemma WfSized(G: Cub)
    requires Wf(G)
    ensures Sized(G)
  {
  }

  lemma StartRows(G: Cub, todo: array2<bool>)
    requires Sized(G) && todo.Length0 == todo.Length1 == G.ne
    requires forall a, b :: 0 <= a < G.ne && 0 <= b < G.ne ==> todo[a, b] == (a != b)
    ensures Diagonal(todo) && Answered(G, todo, 0, -1) && BadPairs(G, 0) == []
    ensures Reported(G, [], [], [], [], [])
  {
  }

  lemma AllRows(G: Cub, limit: int, pairs: seq<(int, int)>)
    requires Sized(G) && pairs == BadPairs(G, G.ne) && |pairs| < Cap(limit)
    ensures pairs == FirstBad(G, limit)
  {
  }
}
