/** The order in which an odometer over B digits runs through words. */
module WordOrder {
  import opened Numbers

  function Pow(b: nat, k: nat): nat {
    if k == 0 then 1 else Pow(b, k - 1) * b
  }

  predicate Digits(b: nat, w: seq<nat>) {
    forall i :: 0 <= i < |w| ==> w[i] < b
  }

  /** The value of a word, first digit most significant. */
  function Value(b: nat, w: seq<nat>): nat {
    if w == [] then 0 else Value(b, w[..|w| - 1]) * b + w[|w| - 1]
  }

  /** The word of length k with value v. */
  function WordOf(b: nat, k: nat, v: nat): (w: seq<nat>)
    requires b > 0
    ensures |w| == k && Digits(b, w)
  {
    if k == 0 then [] else WordOf(b, k - 1, v / b) + [v % b]
  }

  /** All words of length k from value v on, in increasing order. */
  function WordsFrom(b: nat, k: nat, v: nat): (ws: seq<seq<nat>>)
    requires b > 0
    decreases if v < Pow(b, k) then Pow(b, k) - v else 0
  {
    if v >= Pow(b, k) then [] else [WordOf(b, k, v)] + WordsFrom(b, k, v + 1)
  }

  /** All words of length lo, lo + 1, ..., hi. */
  function AllWords(b: nat, lo: nat, hi: nat): (ws: seq<seq<nat>>)
    requires b > 0
    decreases if lo <= hi then hi - lo + 1 else 0
  {
    if lo > hi then [] else WordsFrom(b, lo, 0) + AllWords(b, lo + 1, hi)
  }

  /** The words from w on, up to length hi. */
  function After(b: nat, w: seq<nat>, hi: nat): seq<seq<nat>>
    requires b > 0
  {
    if |w| > hi then [] else WordsFrom(b, |w|, Value(b, w)) + AllWords(b, |w| + 1, hi)
  }

  // --- Words and values -----------------------------------------------------

  lemma {:induction false} PowPositive(b: nat, k: nat)
    requires b > 0
    ensures Pow(b, k) > 0
  {
    if k > 0 {
      PowPositive(b, k - 1);
      assert Pow(b, k - 1) * b >= 1 * b;
    }
  }

  lemma {:induction false} WordOfValue(b: nat, w: seq<nat>)
    requires b > 0 && Digits(b, w)
    ensures WordOf(b, |w|, Value(b, w)) == w
  {
    if w != [] {
      var n := |w| - 1;
      WordOfValue(b, w[..n]);
      DivMod(Value(b, w[..n]), w[n], b);
    }
  }

  lemma {:induction false} ValueOfWord(b: nat, k: nat, v: nat)
    requires b > 0 && v < Pow(b, k)
    ensures Value(b, WordOf(b, k, v)) == v
  {
    if k > 0 {
      var w := WordOf(b, k, v);
      assert w[..k - 1] == WordOf(b, k - 1, v / b);
      DivSmaller(v, Pow(b, k - 1), b);
      ValueOfWord(b, k - 1, v / b);
    }
  }

  lemma DivSmaller(v: nat, p: nat, b: nat)
    requires b > 0 && v < p * b
    ensures v / b < p && v == v / b * b + v % b
  {
    if v / b >= p {
      MulMono(p, v / b, b);
    }
  }

  lemma ScaleStep(p: nat, q: nat, b: nat, d: nat, e: nat)
    requires p < q && d < b
    ensures p * b + d < q * b + e
  {
    MulMono(p + 1, q, b);
  }

  lemma ValueAppend(b: nat, w: seq<nat>, d: nat)
    ensures Value(b, w + [d]) == Value(b, w) * b + d
  {
    assert (w + [d])[..|w|] == w;
  }

  lemma {:induction false} ValueBound(b: nat, w: seq<nat>)
    requires b > 0 && Digits(b, w)
    ensures Value(b, w) < Pow(b, |w|)
  {
    if w != [] {
      var n := |w| - 1;
      ValueBound(b, w[..n]);
      ScaleStep(Value(b, w[..n]), Pow(b, n), b, w[n], 0);
    }
  }

  lemma {:induction false} ValueZeros(b: nat, k: nat)
    ensures Value(b, Zeros(k)) == 0
  {
    if k > 0 {
      assert Zeros(k)[..k - 1] == Zeros(k - 1);
      ValueZeros(b, k - 1);
    }
  }

  // --- One turn of the odometer ---------------------------------------------

  function Full(b: nat, k: nat): (w: seq<nat>)
    requires b > 0
    ensures |w| == k && forall i :: 0 <= i < k ==> w[i] == b - 1
  {
    seq(k, _ => b - 1)
  }

  lemma OneMore(b: nat, p: seq<nat>, z: nat)
    requires b > 0
    ensures p + Zeros(z + 1) == (p + Zeros(z)) + [0]
    ensures p + Full(b, z + 1) == (p + Full(b, z)) + [b - 1]
    ensures p + Zeros(0) == p && p + Full(b, 0) == p
  {
  }

  /** A carry over z full digits adds one. */
  lemma {:induction false} Carry(b: nat, p: seq<nat>, p': seq<nat>, z: nat)
    requires b > 0 && Value(b, p') == Value(b, p) + 1
    ensures Value(b, p' + Zeros(z)) == Value(b, p + Full(b, z)) + 1
  {
    hide Value, Zeros, Full;
    if z == 0 {
      OneMore(b, p, 0);
      OneMore(b, p', 0);
    } else {
      Carry(b, p, p', z - 1);
      OneMore(b, p, z - 1);
      OneMore(b, p', z - 1);
      ValueAppend(b, p' + Zeros(z - 1), 0);
      ValueAppend(b, p + Full(b, z - 1), b - 1);
      Distribute(Value(b, p + Full(b, z - 1)), b);
    }
  }

  lemma Distribute(u: nat, b: nat)
    ensures (u + 1) * b == u * b + b
  {
  }

  lemma {:induction false} FullValue(b: nat, k: nat)
    requires b > 0
    ensures Value(b, Full(b, k)) + 1 == Pow(b, k)
  {
    if k > 0 {
      assert Full(b, k)[..k - 1] == Full(b, k - 1);
      FullValue(b, k - 1);
      var u := Value(b, Full(b, k - 1));
      assert (u + 1) * b == u * b + b;
    }
  }

  /** v is the word after w. */
  ghost predicate Follows(b: nat, w: seq<nat>, v: seq<nat>)
    requires b > 0
  {
    && Digits(b, v)
    && if w == Full(b, |w|) then v == Zeros(|w| + 1)
       else |v| == |w| && Value(b, v) == Value(b, w) + 1
  }

  lemma WordsFromStep(b: nat, k: nat, v: nat)
    requires b > 0
    ensures v < Pow(b, k) ==> WordsFrom(b, k, v) == [WordOf(b, k, v)] + WordsFrom(b, k, v + 1)
    ensures v >= Pow(b, k) ==> WordsFrom(b, k, v) == []
  {
  }

  lemma AllWordsStep(b: nat, lo: nat, hi: nat)
    requires b > 0
    ensures AllWords(b, lo, hi) == if lo > hi then [] else WordsFrom(b, lo, 0) + AllWords(b, lo + 1, hi)
  {
  }

  /** Visiting w and turning the odometer leaves the words after w. */
  lemma AfterStep(b: nat, w: seq<nat>, v: seq<nat>, hi: nat)
    requires b > 0 && Digits(b, w) && |w| <= hi && Follows(b, w, v)
    ensures After(b, w, hi) == [w] + After(b, v, hi)
  {
    hide WordsFrom, AllWords, WordOf, Value, Pow, Digits;
    var k, x := |w|, Value(b, w);
    WordOfValue(b, w);
    ValueBound(b, w);
    WordsFromStep(b, k, x);
    if w == Full(b, k) {
      FullValue(b, k);
      ValueZeros(b, k + 1);
      WordsFromStep(b, k, x + 1);
      AllWordsStep(b, k + 1, hi);
    }
  }

  /** Starting from zeros, all words of that length and above are visited. */
  lemma AfterZeros(b: nat, lo: nat, hi: nat)
    requires b > 0
    ensures After(b, Zeros(lo), hi) == AllWords(b, lo, hi)
  {
    ValueZeros(b, lo);
  }

  // --- Every word once, in order --------------------------------------------

  lemma {:induction false} WordsFromMembers(b: nat, k: nat, v: nat, w: seq<nat>)
    requires b > 0
    ensures w in WordsFrom(b, k, v) <==> |w| == k && Digits(b, w) && Value(b, w) >= v
    decreases if v < Pow(b, k) then Pow(b, k) - v else 0
  {
    if v >= Pow(b, k) {
      if |w| == k && Digits(b, w) {
        ValueBound(b, w);
      }
    } else {
      WordsFromMembers(b, k, v + 1, w);
      ValueOfWord(b, k, v);
      if |w| == k && Digits(b, w) && Value(b, w) == v {
        WordOfValue(b, w);
      }
    }
  }

  /** The words visited are all words over b digits of the given lengths. */
  lemma {:induction false} AllWordsMembers(b: nat, lo: nat, hi: nat, w: seq<nat>)
    requires b > 0
    ensures w in AllWords(b, lo, hi) <==> lo <= |w| <= hi && Digits(b, w)
    decreases if lo <= hi then hi - lo + 1 else 0
  {
    if lo <= hi {
      WordsFromMembers(b, lo, 0, w);
      AllWordsMembers(b, lo + 1, hi, w);
    }
  }

  /** Shorter words first, words of one length by value. */
  predicate Before(b: nat, x: seq<nat>, y: seq<nat>) {
    |x| < |y| || (|x| == |y| && Value(b, x) < Value(b, y))
  }

  predicate Ordered(b: nat, ws: seq<seq<nat>>) {
    forall i, j :: 0 <= i < j < |ws| ==> Before(b, ws[i], ws[j])
  }

  lemma OrderedAppend(b: nat, x: seq<seq<nat>>, y: seq<seq<nat>>)
    requires Ordered(b, x) && Ordered(b, y)
    requires forall u, v :: u in x && v in y ==> Before(b, u, v)
    ensures Ordered(b, x + y)
  {
    hide Before;
    forall i, j | 0 <= i < j < |x + y| ensures Before(b, (x + y)[i], (x + y)[j]) {
      if i < |x| <= j {
        assert x[i] in x && y[j - |x|] in y;
      }
    }
  }

  lemma {:induction false} WordsFromOrdered(b: nat, k: nat, v: nat)
    requires b > 0
    ensures Ordered(b, WordsFrom(b, k, v))
    decreases if v < Pow(b, k) then Pow(b, k) - v else 0
  {
    if v < Pow(b, k) {
      WordsFromOrdered(b, k, v + 1);
      ValueOfWord(b, k, v);
      forall y | y in WordsFrom(b, k, v + 1) ensures Before(b, WordOf(b, k, v), y) {
        WordsFromMembers(b, k, v + 1, y);
      }
      OrderedAppend(b, [WordOf(b, k, v)], WordsFrom(b, k, v + 1));
    }
  }

  /** No word is visited twice, and the order is by length, then by value. */
  lemma {:induction false} AllWordsOrdered(b: nat, lo: nat, hi: nat)
    requires b > 0
    ensures Ordered(b, AllWords(b, lo, hi))
    decreases if lo <= hi then hi - lo + 1 else 0
  {
    hide WordsFrom;
    if lo <= hi {
      WordsFromOrdered(b, lo, 0);
      AllWordsOrdered(b, lo + 1, hi);
      forall u, v | u in WordsFrom(b, lo, 0) && v in AllWords(b, lo + 1, hi) ensures Before(b, u, v) {
        WordsFromMembers(b, lo, 0, u);
        AllWordsMembers(b, lo + 1, hi, v);
      }
      OrderedAppend(b, WordsFrom(b, lo, 0), AllWords(b, lo + 1, hi));
    }
  }

  function PowSum(b: nat, lo: nat, hi: nat): nat
    decreases if lo <= hi then hi - lo + 1 else 0
  {
    if lo > hi then 0 else Pow(b, lo) + PowSum(b, lo + 1, hi)
  }

  lemma {:induction false} WordsFromCount(b: nat, k: nat, v: nat)
    requires b > 0 && v <= Pow(b, k)
    ensures |WordsFrom(b, k, v)| == Pow(b, k) - v
    decreases Pow(b, k) - v
  {
    if v < Pow(b, k) {
      WordsFromCount(b, k, v + 1);
    }
  }

  /** The number of turns: the sum of b^k over the lengths k. */
  lemma {:induction false} AllWordsCount(b: nat, lo: nat, hi: nat)
    requires b > 0
    ensures |AllWords(b, lo, hi)| == PowSum(b, lo, hi)
    decreases if lo <= hi then hi - lo + 1 else 0
  {
    if lo <= hi {
      WordsFromCount(b, lo, 0);
      AllWordsCount(b, lo + 1, hi);
    }
  }

  /** x and y first differ at j, where x is smaller. */
  predicate LexAt(x: seq<nat>, y: seq<nat>, j: nat) {
    |x| == |y| && j < |x| && x[..j] == y[..j] && x[j] < y[j]
  }

  /** The first digit that differs decides. */
  lemma {:induction false} LexIsValue(b: nat, x: seq<nat>, y: seq<nat>, j: nat)
    requires LexAt(x, y, j) && Digits(b, x)
    ensures Value(b, x) < Value(b, y)
    decreases |x|
  {
    var n := |x| - 1;
    if j < n {
      assert x[..n][..j] == x[..j] && y[..n][..j] == y[..j];
      LexIsValue(b, x[..n], y[..n], j);
      ScaleStep(Value(b, x[..n]), Value(b, y[..n]), b, x[n], y[n]);
    } else {
      assert x[..n] == y[..n];
    }
  }

  lemma {:induction false} FirstDifference(x: seq<nat>, y: seq<nat>) returns (j: nat)
    requires |x| == |y| && x != y
    ensures LexAt(x, y, j) || LexAt(y, x, j)
  {
    if x[0] != y[0] {
      j := 0;
    } else {
      assert x == [x[0]] + x[1..] && y == [y[0]] + y[1..];
      j := FirstDifference(x[1..], y[1..]);
      assert x[..j + 1] == [x[0]] + x[1..][..j] && y[..j + 1] == [y[0]] + y[1..][..j];
      j := j + 1;
    }
  }

  /** Words of one length are ordered by value just as they are ordered by their
      first difference. */
  lemma ValueIsLex(b: nat, x: seq<nat>, y: seq<nat>)
    requires |x| == |y| && Digits(b, x) && Digits(b, y)
    ensures Value(b, x) < Value(b, y) <==> exists j: nat :: LexAt(x, y, j)
  {
    hide Value, Digits;
    if j: nat :| LexAt(x, y, j) {
      LexIsValue(b, x, y, j);
    }
    if x != y {
      var j := FirstDifference(x, y);
      if LexAt(y, x, j) {
        LexIsValue(b, y, x, j);
      }
    }
  }
}
