/** The hexadecimal truth table of one input variable. */
module HexString {
  import opened Numbers
  import opened WordOrder

  /** Bit m of x. */
  function BitOf(x: nat, m: nat): nat {
    if m == 0 then x % 2 else BitOf(x / 2, m - 1)
  }

  function DigitValue(c: char): (d: nat)
    ensures d < 16
  {
    if c == 'A' then 10 else if c == 'C' then 12 else if c == 'F' then 15 else 0
  }

  /** The number a string of digits denotes, most significant digit first. */
  function HexValue(s: string): nat {
    if s == [] then 0 else HexValue(s[..|s| - 1]) * 16 + DigitValue(s[|s| - 1])
  }

  /** Bit m of the number is a bit of the digit that is m / 4 places from the right. */
  lemma {:induction false} BitOfHex(s: string, m: nat)
    requires m / 4 < |s|
    ensures BitOf(HexValue(s), m) == BitOf(DigitValue(s[|s| - 1 - m / 4]), m % 4)
    decreases |s|
  {
    var n := |s| - 1;
    var x, d := HexValue(s[..n]), DigitValue(s[n]);
    LowBits(x, d, m);
    if m >= 4 {
      BitOfHex(s[..n], m - 4);
    }
  }

  lemma LowBits(x: nat, d: nat, m: nat)
    requires d < 16
    ensures m < 4 ==> BitOf(x * 16 + d, m) == BitOf(d, m)
    ensures m >= 4 ==> BitOf(x * 16 + d, m) == BitOf(x, m - 4)
  {
    var y := x * 16 + d;
    assert y / 2 == x * 8 + d / 2 && y % 2 == d % 2;
    assert y / 2 / 2 == x * 4 + d / 4 && y / 2 % 2 == d / 2 % 2;
    assert y / 2 / 2 / 2 == x * 2 + d / 8 && y / 2 / 2 % 2 == d / 4 % 2;
    assert y / 2 / 2 / 2 / 2 == x && y / 2 / 2 / 2 % 2 == d / 8 % 2;
    if m >= 1 {
      assert BitOf(y, m) == BitOf(y / 2, m - 1) && BitOf(d, m) == BitOf(d / 2, m - 1);
    }
    if m >= 2 {
      assert BitOf(y, m) == BitOf(y / 2 / 2, m - 2) && BitOf(d, m) == BitOf(d / 2 / 2, m - 2);
    }
    if m >= 3 {
      assert BitOf(y, m) == BitOf(y / 2 / 2 / 2, m - 3) && BitOf(d, m) == BitOf(d / 2 / 2 / 2, m - 3);
    }
  }

  /** Bits at and above position 2 do not depend on the last two bits. */
  lemma HighBit(m: nat, i: nat)
    requires i >= 2
    ensures BitOf(m, i) == BitOf(m / 4, i - 2)
  {
    assert BitOf(m, i) == BitOf(m / 2, i - 1) == BitOf(m / 2 / 2, i - 2);
    assert m / 2 / 2 == m / 4;
  }

  /** Bit k tells whether a number lies in an odd block of length 2^k. */
  lemma {:induction false} BitIsBlock(x: nat, k: nat)
    ensures Pow(2, k) > 0 && BitOf(x, k) == x / Pow(2, k) % 2
  {
    PowPositive(2, k);
    if k > 0 {
      BitIsBlock(x / 2, k - 1);
      DivTwice(x, Pow(2, k - 1));
    }
  }

  lemma DivTwice(x: nat, p: nat)
    requires p > 0
    ensures x / 2 / p == x / (p * 2)
  {
    var q, r := x / 2 / p, x / 2 % p;
    assert x / 2 == q * p + r;
    var rest := 2 * r + x % 2;
    assert x == q * (p * 2) + rest;
    DivMod(q, rest, p * 2);
  }

  lemma {:induction false} PowAdd(a: nat, b: nat)
    ensures Pow(2, a + b) == Pow(2, a) * Pow(2, b)
  {
    if b > 0 {
      PowAdd(a, b - 1);
      MulAssoc(Pow(2, a), Pow(2, b - 1));
    }
  }

  lemma MulAssoc(x: nat, y: nat)
    ensures x * y * 2 == x * (y * 2)
  {
  }

  /** The digit at place k from the left, for inputs from 2 on. */
  ghost predicate Striped(s: string, g: nat)
    requires g > 0
  {
    forall k :: 0 <= k < |s| ==> s[k] == if k / g % 2 == 0 then 'F' else '0'
  }

  /** Counting blocks from the other end of an even number of blocks flips parity. */
  lemma OtherEnd(k: nat, q: nat, g: nat, blocks: nat)
    requires g > 0 && k + q + 1 == 2 * blocks * g
    ensures (k / g % 2 == 0) <==> (q / g % 2 == 1)
  {
    DivParts(k, g);
    DivParts(q, g);
    BlockCount(k / g, q / g, k % g, q % g, g, blocks);
  }

  lemma DivParts(x: nat, g: nat)
    requires g > 0
    ensures x == x / g * g + x % g && x % g < g
  {
  }

  lemma BlockCount(a: nat, b: nat, r: nat, t: nat, g: nat, blocks: nat)
    requires r < g && t < g && (a * g + r) + (b * g + t) + 1 == 2 * blocks * g
    ensures a + b + 1 == 2 * blocks
  {
    assert a * g + b * g == (a + b) * g;
    if a + b + 1 < 2 * blocks {
      MulMono(a + b + 2, 2 * blocks, g);
    } else if a + b + 1 > 2 * blocks {
      MulMono(2 * blocks, a + b, g);
    }
  }

  lemma StripedBit(s: string, n: nat, i: nat, m: nat)
    requires 2 <= i < n && |s| == Pow(2, n - 2) && Pow(2, i - 2) > 0 && Striped(s, Pow(2, i - 2)) && m < Pow(2, n)
    ensures BitOf(HexValue(s), m) == BitOf(m, i)
  {
    hide HexValue, BitOf;
    var g, q := Pow(2, i - 2), m / 4;
    FourTimes(n);
    var k := |s| - 1 - q;
    BitOfHex(s, m);
    HighBit(m, i);
    BitIsBlock(q, i - 2);
    PowAdd(i - 2, n - i - 1);
    assert Pow(2, n - 2) == Pow(2, n - 3) * 2;
    var blocks := Pow(2, n - i - 1);
    Commute(blocks, g);
    OtherEnd(k, q, g, blocks);
    FullBits(m % 4);
  }

  lemma Commute(a: nat, g: nat)
    ensures g * a * 2 == 2 * a * g
  {
  }

  lemma FullBits(r: nat)
    requires r < 4
    ensures BitOf(15, r) == 1 && BitOf(0, r) == 0
    ensures BitOf(10, r) == BitOf(r, 0) && BitOf(12, r) == BitOf(r, 1)
  {
    assert r == 0 || r == 1 || r == 2 || r == 3;
    assert BitOf(15, 3) == BitOf(7, 2) == BitOf(3, 1) == BitOf(1, 0) == 1;
    assert BitOf(0, 3) == BitOf(0, 2) == BitOf(0, 1) == BitOf(0, 0) == 0;
    assert BitOf(10, 3) == BitOf(5, 2) == BitOf(2, 1) == BitOf(1, 0) == 1;
    assert BitOf(12, 3) == BitOf(6, 2) == BitOf(3, 1) == BitOf(1, 0) == 1;
    assert BitOf(15, 2) == BitOf(7, 1) == BitOf(3, 0) == 1;
    assert BitOf(10, 2) == BitOf(5, 1) == BitOf(2, 0) == 0;
    assert BitOf(12, 2) == BitOf(6, 1) == BitOf(3, 0) == 1;
    assert BitOf(3, 1) == BitOf(1, 0) == 1 && BitOf(2, 1) == BitOf(1, 0) == 1;
    assert BitOf(1, 1) == BitOf(0, 0) == 0;
  }

  lemma ConstantBit(s: string, n: nat, i: nat, m: nat)
    requires 2 <= n && i < 2 && |s| == Pow(2, n - 2) && m < Pow(2, n)
    requires forall k :: 0 <= k < |s| ==> s[k] == if i == 0 then 'A' else 'C'
    ensures BitOf(HexValue(s), m) == BitOf(m, i)
  {
    hide Pow, HexValue, BitOf;
    FourTimes(n);
    BitOfHex(s, m);
    FullBits(m % 4);
    LastTwoBits(m);
  }

  lemma FourTimes(n: nat)
    requires n >= 2
    ensures Pow(2, n) == Pow(2, n - 2) * 4
  {
    PowAdd(n - 2, 2);
    assert Pow(2, 2) == 4;
  }

  lemma LastTwoBits(m: nat)
    ensures BitOf(m, 0) == BitOf(m % 4, 0) && BitOf(m, 1) == BitOf(m % 4, 1)
  {
    assert BitOf(m, 1) == BitOf(m / 2, 0) && BitOf(m % 4, 1) == BitOf(m % 4 / 2, 0);
  }

  /** The truth table of input i of n: bit m of the number written is bit i of m. */
  method CreateHexString(n: nat, i: nat) returns (s: string)
    requires n > 1 && i < n
    ensures |s| == Pow(2, n - 2)
    ensures forall m :: 0 <= m < Pow(2, n) ==> BitOf(HexValue(s), m) == BitOf(m, i)
  {
    hide BitOf, HexValue;
    s := [];
    if i < 2 {
      for k := 0 to Pow(2, n - 2)
        invariant |s| == k && forall j :: 0 <= j < k ==> s[j] == if i == 0 then 'A' else 'C'
      {
        s := s + [if i == 0 then 'A' else 'C'];
      }
      forall m | 0 <= m < Pow(2, n) ensures BitOf(HexValue(s), m) == BitOf(m, i) {
        ConstantBit(s, n, i, m);
      }
    } else {
      PowPositive(2, i - 2);
      s := Stripes(n, i);
      forall m | 0 <= m < Pow(2, n) ensures BitOf(HexValue(s), m) == BitOf(m, i) {
        StripedBit(s, n, i, m);
      }
    }
  }

  /** The nested loops for inputs from 2 on: groups of F and 0 in turn. */
  method Stripes(n: nat, i: nat) returns (s: string)
    requires 2 <= i < n && Pow(2, i - 2) > 0
    ensures |s| == Pow(2, n - 2) && Striped(s, Pow(2, i - 2))
  {
    hide Pow, Striped;
    s := [];
    NothingStriped(Pow(2, i - 2));
    var digits, g := Pow(2, n - 2), Pow(2, i - 2);
    PowAdd(i - 2, n - i);
    var groups := digits / g;
    ExactDivision(Pow(2, n - i), g, digits);
    var flag := false;
    for t := 0 to groups
      invariant |s| == t * g && Striped(s, g) && (flag <==> t % 2 == 1)
    {
      for j := 0 to g
        invariant |s| == t * g + j && Striped(s, g)
      {
        StripedAppend(s, g, t, j);
        s := s + [if !flag then 'F' else '0'];
      }
      NextMultiple(t, g);
      flag := !flag;
    }
  }

  lemma NothingStriped(g: nat)
    requires g > 0
    ensures Striped([], g)
  {
  }

  lemma StripedAppend(s: string, g: nat, t: nat, j: nat)
    requires g > 0 && Striped(s, g) && |s| == t * g + j && j < g
    ensures Striped(s + [if t % 2 == 0 then 'F' else '0'], g)
  {
    DivMod(t, j, g);
  }

  lemma NextMultiple(t: nat, g: nat)
    ensures (t + 1) * g == t * g + g
  {
  }

  lemma ExactDivision(q: nat, g: nat, d: nat)
    requires g > 0 && d == g * q
    ensures d / g == q && (d / g) * g == d
  {
    DivMod(q, 0, g);
  }
}
