/** Assignments as numbers in a mixed radix, lowest position least significant. */
module MixedRadix {
  import opened Numbers

  predicate Radices(r: seq<nat>) {
    forall i :: 0 <= i < |r| ==> r[i] > 0
  }

  predicate IsDigits(r: seq<nat>, d: seq<nat>) {
    |d| == |r| && forall i :: 0 <= i < |d| ==> d[i] < r[i]
  }

  /** The number of assignments. */
  function Total(r: seq<nat>): nat {
    if r == [] then 1 else r[0] * Total(r[1..])
  }

  /** The value of an assignment. */
  function Val(r: seq<nat>, d: seq<nat>): nat
    requires |d| == |r|
  {
    if r == [] then 0 else d[0] + r[0] * Val(r[1..], d[1..])
  }

  /** The assignment with value v. */
  function DigitsOf(r: seq<nat>, v: nat): (d: seq<nat>)
    requires Radices(r)
    ensures IsDigits(r, d)
  {
    if r == [] then [] else [v % r[0]] + DigitsOf(r[1..], v / r[0])
  }

  // --- Arithmetic -----------------------------------------------------------

  lemma Succ(b: nat, q: nat)
    ensures b * (q + 1) == b * q + b && (q + 1) * b == b * q + b
  {
  }

  lemma DivModOf(b: nat, q: nat, d: nat)
    requires d < b
    ensures (d + b * q) / b == q && (d + b * q) % b == d
  {
    DivMod(q, d, b);
  }

  lemma BelowProduct(b: nat, d: nat, v: nat, t: nat)
    requires d < b && v < t
    ensures d + b * v < b * t
  {
    MulMono(v + 1, t, b);
    Succ(b, v);
  }

  lemma {:induction false} ValBound(r: seq<nat>, d: seq<nat>)
    requires IsDigits(r, d)
    ensures Val(r, d) < Total(r)
  {
    if r != [] {
      ValBound(r[1..], d[1..]);
      BelowProduct(r[0], d[0], Val(r[1..], d[1..]), Total(r[1..]));
    }
  }

  lemma {:induction false} DigitsOfVal(r: seq<nat>, d: seq<nat>)
    requires IsDigits(r, d) && Radices(r)
    ensures DigitsOf(r, Val(r, d)) == d
  {
    if r != [] {
      DigitsOfVal(r[1..], d[1..]);
      DivModOf(r[0], Val(r[1..], d[1..]), d[0]);
    }
  }

  lemma {:induction false} ValOfDigits(r: seq<nat>, v: nat)
    requires Radices(r) && v < Total(r)
    ensures Val(r, DigitsOf(r, v)) == v
  {
    if r != [] {
      DivBelow(r[0], v, Total(r[1..]));
      ValOfDigits(r[1..], v / r[0]);
      assert DigitsOf(r, v)[1..] == DigitsOf(r[1..], v / r[0]);
    }
  }

  lemma DivBelow(b: nat, v: nat, t: nat)
    requires b > 0 && v < b * t
    ensures v / b < t && v == v % b + b * (v / b)
  {
    if v / b >= t {
      MulMono(t, v / b, b);
    }
  }

  lemma {:induction false} ValZeros(r: seq<nat>)
    ensures Val(r, Zeros(|r|)) == 0
  {
    if r != [] {
      assert Zeros(|r|)[1..] == Zeros(|r[1..]|);
      ValZeros(r[1..]);
    }
  }

  /** Assignments with the same value are the same. */
  lemma ValInjective(r: seq<nat>, x: seq<nat>, y: seq<nat>)
    requires Radices(r) && IsDigits(r, x) && IsDigits(r, y) && Val(r, x) == Val(r, y)
    ensures x == y
  {
    DigitsOfVal(r, x);
    DigitsOfVal(r, y);
  }

  // --- Splitting at a position ----------------------------------------------

  /** The value is the low part plus the weight of position p times the high part. */
  lemma {:induction false} SplitVal(r: seq<nat>, d: seq<nat>, p: nat)
    requires |d| == |r| && p <= |r|
    ensures Val(r, d) == Val(r[..p], d[..p]) + Total(r[..p]) * Val(r[p..], d[p..])
  {
    if p == 0 {
      assert r[0..] == r && d[0..] == d;
      assert 1 * Val(r, d) == Val(r, d);
    } else {
      SplitVal(r[1..], d[1..], p - 1);
      assert r[1..][..p - 1] == r[..p][1..] && d[1..][..p - 1] == d[..p][1..];
      assert r[1..][p - 1..] == r[p..] && d[1..][p - 1..] == d[p..];
      Regroup(r[0], d[0], Val(r[..p][1..], d[..p][1..]), Total(r[..p][1..]), Val(r[p..], d[p..]));
    }
  }

  lemma Regroup(b: nat, d: nat, low: nat, w: nat, high: nat)
    ensures d + b * (low + w * high) == (d + b * low) + (b * w) * high
  {
    assert b * (low + w * high) == b * low + b * (w * high);
    assert b * (w * high) == (b * w) * high;
  }

  lemma {:induction false} SplitTotal(r: seq<nat>, p: nat)
    requires p <= |r|
    ensures Total(r) == Total(r[..p]) * Total(r[p..])
  {
    if p == 0 {
      assert r[0..] == r;
      assert 1 * Total(r) == Total(r);
    } else {
      SplitTotal(r[1..], p - 1);
      assert r[1..][..p - 1] == r[..p][1..] && r[1..][p - 1..] == r[p..];
      Times3(r[0], Total(r[..p][1..]), Total(r[p..]));
    }
  }

  lemma Times3(a: nat, b: nat, c: nat)
    ensures a * (b * c) == (a * b) * c
  {
  }

  lemma {:induction false} TotalPositive(r: seq<nat>)
    requires Radices(r)
    ensures Total(r) > 0
  {
    if r != [] {
      TotalPositive(r[1..]);
      MulMono(1, Total(r[1..]), r[0]);
    }
  }

  // --- Turning the odometer at a position -----------------------------------

  /** e is d with everything below p reset and one added from position p on; `more`
      tells whether that was possible without running over the end. */
  ghost predicate Bumped(r: seq<nat>, d: seq<nat>, p: nat, e: seq<nat>, more: bool)
    requires |d| == |r|
  {
    && p <= |r| && IsDigits(r, e)
    && if more then e[..p] == Zeros(p) && Val(r[p..], e[p..]) == Val(r[p..], d[p..]) + 1
       else e == Zeros(|r|) && Val(r[p..], d[p..]) + 1 == Total(r[p..])
  }

  /** In terms of values: with weight W of position p, v goes to (v / W + 1) * W, or
      over the end when that is the number of assignments. */
  lemma BumpedValue(r: seq<nat>, d: seq<nat>, p: nat, e: seq<nat>, more: bool)
    requires Radices(r) && IsDigits(r, d) && Bumped(r, d, p, e, more)
    ensures Total(r[..p]) > 0
    ensures var next := (Val(r, d) / Total(r[..p]) + 1) * Total(r[..p]);
            if more then Val(r, e) == next && next < Total(r) else next == Total(r) && Val(r, e) == 0
    ensures Val(r, d) < (Val(r, d) / Total(r[..p]) + 1) * Total(r[..p])
  {
    hide Val, Total;
    var w, h := Total(r[..p]), Val(r[p..], d[p..]);
    SplitVal(r, d, p);
    SplitTotal(r, p);
    ValBound(r[..p], d[..p]);
    TotalPositive(r[..p]);
    DivModOf(w, h, Val(r[..p], d[..p]));
    Succ(w, h);
    if more {
      SplitVal(r, e, p);
      LowZeros(r, p);
      ValBound(r, e);
    } else {
      ValZeros(r);
      Commutes(h + 1, w);
    }
  }

  lemma LowZeros(r: seq<nat>, p: nat)
    requires p <= |r|
    ensures Val(r[..p], Zeros(p)) == 0
  {
    ValZeros(r[..p]);
  }

  lemma Commutes(a: nat, b: nat)
    ensures a * b == b * a
  {
  }

  /** Values between a value and its bumped value share all digits from p on, and the
      digit below p does not go down. */
  lemma Between(r: seq<nat>, d: seq<nat>, p: nat, x: seq<nat>)
    requires Radices(r) && IsDigits(r, d) && IsDigits(r, x) && p <= |r| && Total(r[..p]) > 0
    requires Val(r, d) <= Val(r, x) < (Val(r, d) / Total(r[..p]) + 1) * Total(r[..p])
    ensures x[p..] == d[p..]
    ensures p > 0 ==> x[p - 1] >= d[p - 1]
  {
    hide Val, Total;
    var w, h, k := Total(r[..p]), Val(r[p..], d[p..]), Val(r[p..], x[p..]);
    SplitVal(r, d, p);
    SplitVal(r, x, p);
    ValBound(r[..p], d[..p]);
    ValBound(r[..p], x[..p]);
    DivModOf(w, h, Val(r[..p], d[..p]));
    Succ(w, h);
    SameHigh(w, h, k, Val(r[..p], d[..p]), Val(r[..p], x[..p]));
    ValInjective(r[p..], d[p..], x[p..]);
    if p > 0 {
      TopDigit(r[..p], d[..p], x[..p]);
    }
  }

  lemma SameHigh(w: nat, h: nat, k: nat, a: nat, b: nat)
    requires a < w && b < w && a + w * h <= b + w * k < w * h + w
    ensures h == k && a <= b
  {
    if k < h {
      MulMono(k + 1, h, w);
      Succ(w, k);
    } else if k > h {
      MulMono(h + 1, k, w);
      Succ(w, h);
    }
  }

  lemma TopDigit(r: seq<nat>, d: seq<nat>, x: seq<nat>)
    requires |r| > 0 && IsDigits(r, d) && IsDigits(r, x) && Val(r, d) <= Val(r, x)
    ensures d[|r| - 1] <= x[|r| - 1]
  {
    hide Val, Total;
    var p := |r| - 1;
    var w := Total(r[..p]);
    SplitVal(r, d, p);
    SplitVal(r, x, p);
    ValBound(r[..p], d[..p]);
    ValBound(r[..p], x[..p]);
    assert r[p..] == [r[p]] && d[p..] == [d[p]] && x[p..] == [x[p]];
    SingleVal(r[p], d[p]);
    SingleVal(r[p], x[p]);
    if x[p] < d[p] {
      MulMono(x[p] + 1, d[p], w);
      Succ(w, x[p]);
    }
  }

  lemma SingleVal(b: nat, d: nat)
    ensures Val([b], [d]) == d
  {
    assert [b][1..] == [] && [d][1..] == [];
    assert b * 0 == 0;
  }

  /** What one more digit does to the assignment, with or without carry. */
  function Inc(r: seq<nat>, d: seq<nat>): (seq<nat>, bool)
    requires |d| == |r|
  {
    if r == [] then ([], false)
    else if d[0] + 1 != r[0] then ([d[0] + 1] + d[1..], true)
    else ([0] + Inc(r[1..], d[1..]).0, Inc(r[1..], d[1..]).1)
  }

  lemma {:induction false} IncBumps(r: seq<nat>, d: seq<nat>)
    requires IsDigits(r, d)
    ensures |Inc(r, d).0| == |r| && IsDigits(r, Inc(r, d).0)
    ensures Inc(r, d).1 ==> Val(r, Inc(r, d).0) == Val(r, d) + 1
    ensures !Inc(r, d).1 ==> Inc(r, d).0 == Zeros(|r|) && Val(r, d) + 1 == Total(r)
  {
    if r != [] {
      IncBumps(r[1..], d[1..]);
      var e := Inc(r, d).0;
      if d[0] + 1 == r[0] {
        assert e[1..] == Inc(r[1..], d[1..]).0;
        Succ(r[0], Val(r[1..], d[1..]));
        if !Inc(r, d).1 {
          assert e == Zeros(|r|);
        }
      }
    }
  }

  /** The loops of the odometer: digits before p are reset, and Inc applies from p on. */
  ghost predicate Turning(r: seq<nat>, d: seq<nat>, p: nat, i: nat, e: seq<nat>) {
    && |d| == |r| == |e| && p <= i <= |r|
    && (forall k :: 0 <= k < i ==> e[k] == 0) && (forall k :: i <= k < |r| ==> e[k] == d[k])
    && (forall k :: p <= k < i ==> d[k] + 1 == r[k])
  }

  lemma {:induction false} TurnedInc(r: seq<nat>, d: seq<nat>, p: nat, i: nat)
    requires |d| == |r| && p <= i <= |r|
    requires forall k :: p <= k < i ==> d[k] + 1 == r[k]
    ensures Inc(r[p..], d[p..]) == (Zeros(i - p) + Inc(r[i..], d[i..]).0, Inc(r[i..], d[i..]).1)
    decreases i - p
  {
    hide Inc;
    if p < i {
      TurnedInc(r, d, p + 1, i);
      IncOver(r, d, p);
      assert Zeros(i - p) == [0] + Zeros(i - (p + 1));
      assert [0] + (Zeros(i - (p + 1)) + Inc(r[i..], d[i..]).0) == [0] + Zeros(i - (p + 1)) + Inc(r[i..], d[i..]).0;
    } else {
      assert Zeros(0) + Inc(r[i..], d[i..]).0 == Inc(r[i..], d[i..]).0;
    }
  }

  lemma IncOver(r: seq<nat>, d: seq<nat>, i: nat)
    requires |d| == |r| && i < |r| && d[i] + 1 == r[i]
    ensures Inc(r[i..], d[i..]) == ([0] + Inc(r[i + 1..], d[i + 1..]).0, Inc(r[i + 1..], d[i + 1..]).1)
  {
    assert r[i..][1..] == r[i + 1..] && d[i..][1..] == d[i + 1..];
  }

  lemma TurnStart(r: seq<nat>, d: seq<nat>, p: nat, e: seq<nat>)
    requires |d| == |r| == |e| && p <= |r| && forall k :: 0 <= k < |d| ==> e[k] == if k < p then 0 else d[k]
    ensures Turning(r, d, p, p, e)
  {
  }

  lemma TurnStep(r: seq<nat>, d: seq<nat>, p: nat, i: nat, e: seq<nat>)
    requires Turning(r, d, p, i, e) && i < |r|
    ensures i < |e| == |d| && e[i] == d[i]
    ensures d[i] + 1 == r[i] ==> Turning(r, d, p, i + 1, e[i := 0])
  {
  }

  lemma TurnedMore(r: seq<nat>, d: seq<nat>, p: nat, i: nat, e: seq<nat>)
    requires IsDigits(r, d) && Turning(r, d, p, i, e) && i < |r| && d[i] + 1 != r[i]
    ensures Bumped(r, d, p, e[i := d[i] + 1], true)
  {
    hide Val, Total, Inc;
    TurnedInc(r, d, p, i);
    IncBumps(r[p..], d[p..]);
    IncHere(r, d, i);
    var e' := e[i := d[i] + 1];
    assert e'[..p] == Zeros(p);
    assert e'[p..] == Zeros(i - p) + ([d[i] + 1] + d[i + 1..]);
  }

  lemma IncHere(r: seq<nat>, d: seq<nat>, i: nat)
    requires |d| == |r| && i < |r| && d[i] + 1 != r[i]
    ensures Inc(r[i..], d[i..]) == ([d[i] + 1] + d[i + 1..], true)
  {
    assert d[i..][1..] == d[i + 1..];
  }

  lemma TurnedOver(r: seq<nat>, d: seq<nat>, p: nat, e: seq<nat>)
    requires Radices(r) && IsDigits(r, d) && Turning(r, d, p, |r|, e)
    ensures Bumped(r, d, p, e, false)
  {
    hide Val, Total;
    TurnedInc(r, d, p, |r|);
    IncBumps(r[p..], d[p..]);
    assert r[|r|..] == [] && d[|r|..] == [];
    assert e == Zeros(|r|);
  }

  /** The digit that goes up when the odometer turns: those from p to it were full, those
      above it stay. */
  ghost predicate CarriedTo(r: seq<nat>, d: seq<nat>, p: nat, e: seq<nat>, t: nat) {
    && |d| == |r| == |e| && p <= t < |r| && e[t] == d[t] + 1
    && (forall k :: 0 <= k < t ==> e[k] == 0) && (forall k :: t < k < |r| ==> e[k] == d[k])
  }

  lemma {:induction false} IncShape(r: seq<nat>, d: seq<nat>) returns (t: nat)
    requires |d| == |r| && Inc(r, d).1
    ensures |Inc(r, d).0| == |r| && CarriedTo(r, d, 0, Inc(r, d).0, t)
  {
    if d[0] + 1 != r[0] {
      t := 0;
    } else {
      var u := IncShape(r[1..], d[1..]);
      t := u + 1;
      var e := Inc(r, d).0;
      forall k | 0 <= k < |r| ensures e[k] == if k < t then 0 else if k == t then d[k] + 1 else d[k] {
        if k > 0 {
          assert e[k] == Inc(r[1..], d[1..]).0[k - 1] && d[k] == d[1..][k - 1];
        }
      }
    }
  }

  lemma BumpedShape(r: seq<nat>, d: seq<nat>, p: nat, e: seq<nat>) returns (t: nat)
    requires Radices(r) && IsDigits(r, d) && Bumped(r, d, p, e, true)
    ensures CarriedTo(r, d, p, e, t)
  {
    hide Val, Total, Inc;
    IncBumps(r[p..], d[p..]);
    ValBound(r[p..], e[p..]);
    var f := Inc(r[p..], d[p..]).0;
    ValInjective(r[p..], e[p..], f);
    var u := IncShape(r[p..], d[p..]);
    t := p + u;
    forall k | 0 <= k < |r| ensures e[k] == if k < t then 0 else if k == t then d[k] + 1 else d[k] {
      if k < p {
        assert e[k] == e[..p][k];
      } else {
        assert e[k] == e[p..][k - p] && d[k] == d[p..][k - p];
      }
    }
  }

  /** The highest digit that differs decides. */
  lemma ValBelow(r: seq<nat>, x: seq<nat>, e: seq<nat>, t: nat)
    requires IsDigits(r, x) && IsDigits(r, e) && t < |r| && x[t] < e[t] && forall k :: t < k < |r| ==> x[k] == e[k]
    ensures Val(r, x) < Val(r, e)
  {
    hide Total;
    SplitVal(r, x, t);
    SplitVal(r, e, t);
    ValBound(r[..t], x[..t]);
    assert x[t..][1..] == e[t..][1..];
    var w, h, k := Total(r[..t]), Val(r[t..], x[t..]), Val(r[t..], e[t..]);
    assert h < k;
    MulMono(h + 1, k, w);
    Succ(w, h);
  }

  /** Zeros below p make the least value among the assignments with the same digits from
      p on. */
  lemma ZerosLeast(r: seq<nat>, e: seq<nat>, x: seq<nat>, p: nat)
    requires |e| == |r| == |x| && p <= |r| && x[p..] == e[p..] && forall k :: 0 <= k < p ==> e[k] == 0
    ensures Val(r, e) <= Val(r, x)
  {
    hide Val, Total;
    SplitVal(r, e, p);
    SplitVal(r, x, p);
    assert e[..p] == Zeros(p);
    LowZeros(r, p);
  }

  // --- All assignments in order ---------------------------------------------

  /** The assignments from value v on. */
  function From(r: seq<nat>, v: nat): (ds: seq<seq<nat>>)
    requires Radices(r)
    decreases if v < Total(r) then Total(r) - v else 0
  {
    if v >= Total(r) then [] else [DigitsOf(r, v)] + From(r, v + 1)
  }

  /** Those among ds that are not excluded. */
  ghost function Keep(bad: seq<nat> -> bool, ds: seq<seq<nat>>): seq<seq<nat>> {
    if ds == [] then [] else (if bad(ds[0]) then [] else [ds[0]]) + Keep(bad, ds[1..])
  }

  lemma KeepHead(r: seq<nat>, bad: seq<nat> -> bool, v: nat)
    requires Radices(r) && v < Total(r)
    ensures Keep(bad, From(r, v)) == (if bad(DigitsOf(r, v)) then [] else [DigitsOf(r, v)]) + Keep(bad, From(r, v + 1))
  {
    assert From(r, v)[1..] == From(r, v + 1);
  }

  /** A stretch of excluded assignments may be skipped. */
  lemma {:induction false} KeepSkip(r: seq<nat>, bad: seq<nat> -> bool, v: nat, u: nat)
    requires Radices(r) && v <= u <= Total(r)
    requires forall x :: v <= x < u ==> bad(DigitsOf(r, x))
    ensures Keep(bad, From(r, v)) == Keep(bad, From(r, u))
    decreases u - v
  {
    hide From, Keep;
    if v < u {
      KeepSkip(r, bad, v + 1, u);
      KeepHead(r, bad, v);
    }
  }

  lemma {:induction false} FromMembers(r: seq<nat>, v: nat, d: seq<nat>)
    requires Radices(r)
    ensures d in From(r, v) <==> IsDigits(r, d) && Val(r, d) >= v
    decreases if v < Total(r) then Total(r) - v else 0
  {
    if v >= Total(r) {
      if IsDigits(r, d) { ValBound(r, d); }
    } else {
      FromMembers(r, v + 1, d);
      ValOfDigits(r, v);
      if IsDigits(r, d) && Val(r, d) == v { DigitsOfVal(r, d); }
    }
  }

  lemma {:induction false} KeepMembers(bad: seq<nat> -> bool, ds: seq<seq<nat>>, d: seq<nat>)
    ensures d in Keep(bad, ds) <==> d in ds && !bad(d)
  {
    if ds != [] {
      KeepMembers(bad, ds[1..], d);
    }
  }

  ghost predicate Rising(r: seq<nat>, ds: seq<seq<nat>>) {
    && (forall i :: 0 <= i < |ds| ==> |ds[i]| == |r|)
    && forall i, j :: 0 <= i < j < |ds| ==> Val(r, ds[i]) < Val(r, ds[j])
  }

  /** What is kept is listed by increasing value, so nothing is listed twice. */
  lemma {:induction false} KeepRising(r: seq<nat>, bad: seq<nat> -> bool, v: nat)
    requires Radices(r)
    ensures Rising(r, Keep(bad, From(r, v)))
    decreases if v < Total(r) then Total(r) - v else 0
  {
    hide From, Val, Rising;
    if v < Total(r) {
      KeepRising(r, bad, v + 1);
      KeepHead(r, bad, v);
      ValOfDigits(r, v);
      var rest := Keep(bad, From(r, v + 1));
      forall x | x in rest ensures |x| == |r| && Val(r, x) > v {
        KeepMembers(bad, From(r, v + 1), x);
        FromMembers(r, v + 1, x);
      }
      RisingCons(r, DigitsOf(r, v), rest);
      assert [] + rest == rest;
    } else {
      FromEnd(r, v);
      RisingEmpty(r);
    }
  }

  lemma RisingEmpty(r: seq<nat>)
    ensures Rising(r, [])
  {
  }

  lemma RisingCons(r: seq<nat>, d: seq<nat>, rest: seq<seq<nat>>)
    requires |d| == |r| && Rising(r, rest)
    requires forall x :: x in rest ==> |x| == |r| && Val(r, x) > Val(r, d)
    ensures Rising(r, [d] + rest)
  {
    hide Val;
    assert forall i :: 0 <= i < |rest| ==> rest[i] in rest;
  }

  lemma FromEnd(r: seq<nat>, v: nat)
    requires Radices(r) && v >= Total(r)
    ensures From(r, v) == []
  {
  }
}
